/** Diagnostics, the identity two of them share when they are the same failure, and their builder. */
module Diagnostics {
  import opened Wrappers
  import StableSort

  datatype Severity = Error | Warning

  // A diagnostic code, by its place in the declared order.
  type Code = nat

  // The kinds of context, in their declared order.
  datatype Kind =
    | HttpStatus | Endpoint | ProblemType | EntityType | Attribute | InstancePath | SchemaPath | Keyword | Detail
    | RenamedColumn | Entities | Source | Attempt | PayloadBytes | BodyEcho | RegistrationId | BatchSize

  function Rank(kind: Kind): int {
    match kind
    case HttpStatus => 0
    case Endpoint => 1
    case ProblemType => 2
    case EntityType => 3
    case Attribute => 4
    case InstancePath => 5
    case SchemaPath => 6
    case Keyword => 7
    case Detail => 8
    case RenamedColumn => 9
    case Entities => 10
    case Source => 11
    case Attempt => 12
    case PayloadBytes => 13
    case BodyEcho => 14
    case RegistrationId => 15
    case BatchSize => 16
  }

  datatype Field = Field(kind: Kind, payload: string)

  // Whether a field names the failure rather than one occurrence of it.
  predicate IsDefining(kind: Kind) {
    match kind
    case Entities | Attempt | PayloadBytes | BodyEcho | RegistrationId | BatchSize => false
    case _ => true
  }

  function RankOf(field: Field): int {
    Rank(field.kind)
  }

  datatype Identity = Identity(severity: Severity, code: Code, defining: seq<Field>, causes: seq<string>)

  datatype Diagnostic = Diagnostic(identity: Identity, headline: string, incidental: seq<Field>, occurrences: nat)

  // A defining context ordered by kind, fields of one kind in the order they were given.
  function NewIdentity(severity: Severity, code: Code, defining: seq<Field>, causes: seq<string>): Identity {
    Identity(severity, code, StableSort.Sort(defining, RankOf), causes)
  }

  function DefiningOf(fields: seq<Field>): seq<Field> {
    if fields == [] then []
    else
      var last := fields[|fields| - 1];
      DefiningOf(fields[..|fields| - 1]) + if IsDefining(last.kind) then [last] else []
  }

  function IncidentalOf(fields: seq<Field>): seq<Field> {
    if fields == [] then []
    else
      var last := fields[|fields| - 1];
      IncidentalOf(fields[..|fields| - 1]) + if IsDefining(last.kind) then [] else [last]
  }

  // A rendered error: its own message and those of its sources.
  datatype ErrorChain = ErrorChain(message: string, sources: seq<string>)

  class DiagnosticBuilder {
    const severity: Severity
    const code: Code
    const headline: string
    var defining: seq<Field>
    var incidental: seq<Field>
    var causes: seq<string>
    var occurrences: nat
    // The fields given so far, in order.
    ghost var given: seq<Field>

    ghost predicate Valid()
      reads this
    {
      defining == DefiningOf(given) && incidental == IncidentalOf(given) && occurrences > 0
    }

    constructor (severity: Severity, code: Code, headline: string)
      ensures Valid() && given == [] && causes == [] && occurrences == 1
      ensures this.severity == severity && this.code == code && this.headline == headline
    {
      this.severity, this.code, this.headline := severity, code, headline;
      defining, incidental, causes, occurrences, given := [], [], [], 1, [];
    }

    constructor FromError(severity: Severity, code: Code, error: ErrorChain)
      ensures Valid() && given == [] && causes == error.sources && occurrences == 1
      ensures this.severity == severity && this.code == code && this.headline == error.message
    {
      this.severity, this.code, this.headline := severity, code, error.message;
      defining, incidental, causes, occurrences, given := [], [], error.sources, 1, [];
    }

    method WithContext(field: Field)
      requires Valid()
      modifies this`defining, this`incidental, this`given
      ensures Valid() && given == old(given) + [field]
    {
      if IsDefining(field.kind) {
        defining := defining + [field];
      } else {
        incidental := incidental + [field];
      }
      assert (given + [field])[..|given|] == given;
      given := given + [field];
    }

    method WithOptionalContext(field: Option<Field>)
      requires Valid()
      modifies this`defining, this`incidental, this`given
      ensures Valid() && given == old(given) + if field.Some? then [field.value] else []
    {
      if field.Some? {
        WithContext(field.value);
      }
    }

    method WithCause(cause: string)
      modifies this`causes
      ensures causes == old(causes) + [cause]
    {
      causes := causes + [cause];
    }

    method WithCauses(chain: seq<string>)
      modifies this`causes
      ensures causes == chain
    {
      causes := chain;
    }

    method Because(error: ErrorChain)
      modifies this`causes
      ensures causes == old(causes) + [error.message] + error.sources
    {
      causes := causes + [error.message];
      causes := causes + error.sources;
    }

    method WithOccurrences(count: nat)
      requires Valid() && count > 0
      modifies this`occurrences
      ensures Valid() && occurrences == count
    {
      occurrences := count;
    }

    method Build() returns (built: Diagnostic)
      requires Valid()
      ensures built == BuiltFrom(severity, code, headline, given, causes, occurrences)
    {
      built := Diagnostic(NewIdentity(severity, code, defining, causes), headline, incidental, occurrences);
    }
  }

  /** The diagnostic a builder finishes once it was given these fields, in this order. */
  function BuiltFrom(severity: Severity, code: Code, headline: string, fields: seq<Field>, causes: seq<string>, occurrences: nat): Diagnostic {
    Diagnostic(NewIdentity(severity, code, DefiningOf(fields), causes), headline, IncidentalOf(fields), occurrences)
  }

  // The fields of one kind, in the order they were given.
  function OfKind(fields: seq<Field>, kind: Kind): seq<Field> {
    if fields == [] then []
    else
      var last := fields[|fields| - 1];
      OfKind(fields[..|fields| - 1], kind) + if last.kind == kind then [last] else []
  }

  lemma {:induction false} SelectAppends(fields: seq<Field>, last: Field, rank: int)
    ensures StableSort.Select(fields + [last], RankOf, rank) == StableSort.Select(fields, RankOf, rank) + if RankOf(last) == rank then [last] else []
  {
    if fields == [] {
      assert fields + [last] == [last];
      assert [last][1..] == [];
    } else {
      assert (fields + [last])[1..] == fields[1..] + [last];
      SelectAppends(fields[1..], last, rank);
    }
  }

  lemma RankIsInjective(a: Kind, b: Kind)
    ensures Rank(a) == Rank(b) <==> a == b
  {
  }

  lemma {:induction false} SelectIsOfKind(fields: seq<Field>, kind: Kind)
    ensures StableSort.Select(DefiningOf(fields), RankOf, Rank(kind)) == if IsDefining(kind) then OfKind(fields, kind) else []
  {
    if fields != [] {
      var init, last := fields[..|fields| - 1], fields[|fields| - 1];
      SelectIsOfKind(init, kind);
      RankIsInjective(last.kind, kind);
      SelectAppends(DefiningOf(init), last, Rank(kind));
      assert DefiningOf(init) + [] == DefiningOf(init) && OfKind(init, kind) + [] == OfKind(init, kind);
    }
  }

  lemma {:induction false} SelectOfNoKind(fields: seq<Field>, rank: int)
    requires forall kind :: Rank(kind) != rank
    ensures StableSort.Select(fields, RankOf, rank) == []
  {
    if fields != [] { SelectOfNoKind(fields[1..], rank); }
  }

  /**
  Two builds of one severity, code and cause chain share an identity exactly when, kind by kind, they
  were given the same defining fields in the same order. Nothing else can tell them apart: neither the
  headline, the occurrences, the incidental fields, nor the order of fields of different kinds.
  */
  lemma SameIdentity(severity: Severity, code: Code, causes: seq<string>,
                     headline1: string, fields1: seq<Field>, occurrences1: nat,
                     headline2: string, fields2: seq<Field>, occurrences2: nat)
    ensures BuiltFrom(severity, code, headline1, fields1, causes, occurrences1).identity
            == BuiltFrom(severity, code, headline2, fields2, causes, occurrences2).identity
            <==> forall kind :: IsDefining(kind) ==> OfKind(fields1, kind) == OfKind(fields2, kind)
  {
    var d1, d2 := DefiningOf(fields1), DefiningOf(fields2);
    StableSort.SortLaws(d1, RankOf);
    StableSort.SortLaws(d2, RankOf);
    if StableSort.Sort(d1, RankOf) == StableSort.Sort(d2, RankOf) {
      forall kind | IsDefining(kind) ensures OfKind(fields1, kind) == OfKind(fields2, kind) {
        SelectIsOfKind(fields1, kind);
        SelectIsOfKind(fields2, kind);
        assert StableSort.Select(d1, RankOf, Rank(kind)) == StableSort.Select(StableSort.Sort(d1, RankOf), RankOf, Rank(kind));
        assert StableSort.Select(d2, RankOf, Rank(kind)) == StableSort.Select(StableSort.Sort(d2, RankOf), RankOf, Rank(kind));
      }
    }
    if forall kind :: IsDefining(kind) ==> OfKind(fields1, kind) == OfKind(fields2, kind) {
      forall rank: int ensures StableSort.Select(d1, RankOf, rank) == StableSort.Select(d2, RankOf, rank) {
        if kind :| Rank(kind) == rank {
          SelectIsOfKind(fields1, kind);
          SelectIsOfKind(fields2, kind);
        } else {
          SelectOfNoKind(d1, rank);
          SelectOfNoKind(d2, rank);
        }
      }
      StableSort.SortedIsUnique(StableSort.Sort(d1, RankOf), StableSort.Sort(d2, RankOf), RankOf);
    }
  }

  lemma {:induction false} OneFieldMore(fields: seq<Field>, last: Field, kind: Kind)
    ensures OfKind(fields + [last], kind) == OfKind(fields, kind) + if last.kind == kind then [last] else []
  {
    assert (fields + [last])[..|fields|] == fields;
  }

  /** A field more makes another failure of it, but for the six kinds that name one occurrence of a failure. */
  lemma FieldsThatDistinguish(severity: Severity, code: Code, headline: string, fields: seq<Field>, causes: seq<string>, occurrences: nat, last: Field)
    ensures BuiltFrom(severity, code, headline, fields + [last], causes, occurrences).identity
            == BuiltFrom(severity, code, headline, fields, causes, occurrences).identity
            <==> last.kind in {Entities, Attempt, PayloadBytes, BodyEcho, RegistrationId, BatchSize}
  {
    SameIdentity(severity, code, causes, headline, fields + [last], occurrences, headline, fields, occurrences);
    forall kind ensures OfKind(fields + [last], kind) == OfKind(fields, kind) <==> kind != last.kind {
      OneFieldMore(fields, last, kind);
      assert |OfKind(fields, kind) + [last]| > |OfKind(fields, kind)|;
    }
  }

  lemma {:induction false} FieldsAreSplit(fields: seq<Field>)
    ensures multiset(DefiningOf(fields)) + multiset(IncidentalOf(fields)) == multiset(fields)
  {
    if fields != [] {
      var init, last := fields[..|fields| - 1], fields[|fields| - 1];
      FieldsAreSplit(init);
      assert fields == init + [last];
    }
  }

  /** Every field given is kept once, in the identity or beside it. */
  lemma NoFieldIsLost(severity: Severity, code: Code, headline: string, fields: seq<Field>, causes: seq<string>, occurrences: nat)
    ensures var built := BuiltFrom(severity, code, headline, fields, causes, occurrences);
            multiset(built.identity.defining) + multiset(built.incidental) == multiset(fields)
  {
    StableSort.SortLaws(DefiningOf(fields), RankOf);
    FieldsAreSplit(fields);
  }

  /** The identity is documented as indifferent to the order fields are given in. For two fields of one
      kind it is not: in the other order they are another failure. */
  lemma OneKindOrderSplits(severity: Severity, code: Code, headline: string)
    ensures var a, b := Field(Source, "a.csv"), Field(Source, "b.csv");
            BuiltFrom(severity, code, headline, [a, b], [], 1).identity != BuiltFrom(severity, code, headline, [b, a], [], 1).identity
  {
    var a, b := Field(Source, "a.csv"), Field(Source, "b.csv");
    SameIdentity(severity, code, [], headline, [a, b], 1, headline, [b, a], 1);
    assert [a, b][..1] == [a] && [b, a][..1] == [b] && [a][..0] == [] && [b][..0] == [];
    assert OfKind([a], Source) == [a] && OfKind([b], Source) == [b];
    assert OfKind([a, b], Source) == [a] + [b] && OfKind([b, a], Source) == [b] + [a];
    assert ([a] + [b])[0] != ([b] + [a])[0];
  }

  // ---- Explaining ----

  // The text of the first Detail, if there is one.
  function FirstDetail(fields: seq<Field>): Option<string> {
    if fields == [] then None
    else if fields[0].kind == Detail then Some(fields[0].payload)
    else FirstDetail(fields[1..])
  }

  /** The shortest text that explains a failure: a root cause, else the peer's detail, else the headline. */
  function Explanation(d: Diagnostic): string {
    if d.identity.causes != [] then d.identity.causes[0]
    else
      var detail := FirstDetail(d.identity.defining);
      if detail.Some? then detail.value else d.headline
  }

  lemma {:induction false} FirstDetailIsSelected(fields: seq<Field>)
    ensures var details := StableSort.Select(fields, RankOf, Rank(Detail));
            FirstDetail(fields) == if details == [] then None else Some(details[0].payload)
  {
    if fields != [] {
      RankIsInjective(fields[0].kind, Detail);
      FirstDetailIsSelected(fields[1..]);
    }
  }

  /** A diagnostic is explained by its first cause, or the first Detail it was given, or its headline, in this order. */
  lemma BuiltExplains(severity: Severity, code: Code, headline: string, fields: seq<Field>, causes: seq<string>, occurrences: nat)
    ensures Explanation(BuiltFrom(severity, code, headline, fields, causes, occurrences))
            == if causes != [] then causes[0]
               else if OfKind(fields, Detail) != [] then OfKind(fields, Detail)[0].payload
               else headline
  {
    StableSort.SortLaws(DefiningOf(fields), RankOf);
    FirstDetailIsSelected(StableSort.Sort(DefiningOf(fields), RankOf));
    SelectIsOfKind(fields, Detail);
    assert StableSort.Select(StableSort.Sort(DefiningOf(fields), RankOf), RankOf, Rank(Detail)) == OfKind(fields, Detail);
  }

  // The identity alone explains the failure.
  predicate Explains(identity: Identity) {
    identity.causes != [] || exists i :: 0 <= i < |identity.defining| && identity.defining[i].kind == Detail
  }

  lemma {:induction false} DetailIsFound(fields: seq<Field>)
    ensures FirstDetail(fields).Some? <==> exists i :: 0 <= i < |fields| && fields[i].kind == Detail
  {
    if fields != [] {
      DetailIsFound(fields[1..]);
      if i :| 0 <= i < |fields| && fields[i].kind == Detail {
        assert i == 0 || fields[1..][i - 1].kind == Detail;
      }
      if i :| 0 <= i < |fields[1..]| && fields[1..][i].kind == Detail {
        assert fields[i + 1].kind == Detail;
      }
    }
  }

  /** Diagnostics of one identity all carry one explanation exactly when the identity holds a cause or
      a Detail: without either the explanation is the headline, which the identity leaves out. */
  lemma ExplanationIsTheIdentitys(identity: Identity)
    ensures Explains(identity) <==>
            forall a: Diagnostic, b: Diagnostic :: a.identity == identity && b.identity == identity ==> Explanation(a) == Explanation(b)
  {
    DetailIsFound(identity.defining);
    if !Explains(identity) {
      var a, b := Diagnostic(identity, "a", [], 1), Diagnostic(identity, "b", [], 1);
      assert Explanation(a) == "a" && Explanation(b) == "b" && "a"[0] != "b"[0];
    }
  }
}
