// Opaque identifiers. The repository hashes a prefix and its inputs into an id
// (lifecycleID, deterministicID); here such an id is a constructor applied to those
// inputs, so two derived ids are equal exactly when their inputs are.
module Ids {
  import opened Ordering

  datatype Option<+T> = None | Some(value: T)

  datatype Result<+T, +E> = Success(value: T) | Failure(error: E)

  datatype Kind =
    | MemoryKind
    | SiblingKind
    | VersionKind
    | SiblingVersionKind
    | OperationKind
    | ConflictKind
    | ProposalKind
    | EpisodeKind
    | OutcomeKind
    | WorkingSetKind

  datatype Id = Text(s: string) | Derived(kind: Kind, of: Id, extra: Id)

  const NO_ID: Id := Text("")

  function Rank(k: Kind): nat {
    match k
    case MemoryKind => 0
    case SiblingKind => 1
    case VersionKind => 2
    case SiblingVersionKind => 3
    case OperationKind => 4
    case ConflictKind => 5
    case ProposalKind => 6
    case EpisodeKind => 7
    case OutcomeKind => 8
    case WorkingSetKind => 9
  }

  /** Lexicographic order on texts, as Go and SQLite compare them. */
  predicate TextLess(a: string, b: string) {
    if a == [] || b == [] then
      a == [] && b != []
    else
      a[0] < b[0] || (a[0] == b[0] && TextLess(a[1..], b[1..]))
  }

  /** A fixed total order on ids: the results below hold for any such order. */
  predicate Less(a: Id, b: Id) {
    match (a, b)
    case (Text(s), Text(t)) => TextLess(s, t)
    case (Text(_), Derived(_, _, _)) => true
    case (Derived(_, _, _), Text(_)) => false
    case (Derived(k, x, y), Derived(l, z, w)) =>
      Rank(k) < Rank(l) || (k == l && (Less(x, z) || (x == z && Less(y, w))))
  }

  lemma {:induction false} TextOrder(a: string, b: string)
    ensures !TextLess(a, a)
    ensures TextLess(a, b) || TextLess(b, a) || a == b
    ensures !(TextLess(a, b) && TextLess(b, a))
  {
    if a != [] {
      TextOrder(a[1..], if b == [] then [] else b[1..]);
      if b != [] {
        assert a == [a[0]] + a[1..] && b == [b[0]] + b[1..];
      }
    }
  }

  lemma {:induction false} TextTransitive(a: string, b: string, c: string)
    requires TextLess(a, b) && TextLess(b, c)
    ensures TextLess(a, c)
  {
    if a != [] && a[0] == b[0] == c[0] {
      TextTransitive(a[1..], b[1..], c[1..]);
    }
  }

  lemma {:induction false} LessOrder(a: Id, b: Id)
    ensures !Less(a, a)
    ensures Less(a, b) || Less(b, a) || a == b
    ensures !(Less(a, b) && Less(b, a))
    decreases a
  {
    match a {
      case Text(s) => TextOrder(s, if b.Text? then b.s else s);
      case Derived(k, x, y) =>
        LessOrder(x, if b.Derived? then b.of else x);
        LessOrder(y, if b.Derived? then b.extra else y);
    }
  }

  lemma {:induction false} LessTransitive(a: Id, b: Id, c: Id)
    requires Less(a, b) && Less(b, c)
    ensures Less(a, c)
    decreases a
  {
    if a.Text? && c.Text? {
      TextTransitive(a.s, b.s, c.s);
    } else if a.Derived? && a.kind == b.kind == c.kind {
      if Less(a.of, b.of) && Less(b.of, c.of) {
        LessTransitive(a.of, b.of, c.of);
      } else if a.of == b.of == c.of {
        LessTransitive(a.extra, b.extra, c.extra);
      }
    }
  }

  /** Ids are totally ordered, so a set of them has one sorted listing. */
  lemma IdsOrdered(ids: set<Id>)
    ensures OrderOn(Less, ids)
  {
    forall x, y | x in ids && y in ids ensures !Less(x, x) && (x == y || Less(x, y) || Less(y, x)) {
      LessOrder(x, y);
    }
    forall x, y, z | x in ids && y in ids && z in ids && Less(x, y) && Less(y, z) ensures Less(x, z) {
      LessTransitive(x, y, z);
    }
  }
}
