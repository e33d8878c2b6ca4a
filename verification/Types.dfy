/** Names shared by every part of the model. */
module Types {
  datatype Option<+T> = None | Some(value: T)

  /** A session id, as the callers write it. */
  type Sid = string

  /** The bytes a serializer produced for one session. */
  type Blob = seq<bv8>

  type Store = map<Sid, Blob>

  datatype Tier = Hot | Warm | Cold

  function Rank(t: Tier): nat {
    match t
    case Hot => 0
    case Warm => 1
    case Cold => 2
  }

  /** The next colder tier. */
  function Below(t: Tier): Tier
    requires t != Cold
  {
    if t == Hot then Warm else Cold
  }

  /** What the index records about a session. */
  datatype Entry = Entry(
    userId: string, createdAt: real, lastAccessed: real, tokenCount: nat, numBlocks: nat,
    tier: Tier, sizeBytes: nat, accessCount: nat)

  /** A list without one of its members, the others in place. */
  function Without<T(==, !new)>(xs: seq<T>, x: T): (r: seq<T>)
    ensures forall y :: y in r <==> y in xs && y != x
    ensures |r| <= |xs|
    ensures x !in xs ==> r == xs
  {
    if xs == [] then []
    else if xs[0] == x then Without(xs[1..], x)
    else [xs[0]] + Without(xs[1..], x)
  }

  ghost predicate NoDup<T>(xs: seq<T>) {
    forall i, j :: 0 <= i < j < |xs| ==> xs[i] != xs[j]
  }

  /** Removing a member keeps the order of the rest, so anything that holds of every ordered pair still does. */
  lemma {:induction false} WithoutKeepsOrder<T(!new)>(xs: seq<T>, x: T, before: (T, T) -> bool)
    requires forall i, j :: 0 <= i < j < |xs| ==> before(xs[i], xs[j])
    ensures forall i, j :: 0 <= i < j < |Without(xs, x)| ==> before(Without(xs, x)[i], Without(xs, x)[j])
  {
    if xs != [] {
      WithoutKeepsOrder(xs[1..], x, before);
      var rest := Without(xs[1..], x);
      forall j | 0 <= j < |rest|
        ensures before(xs[0], rest[j])
      {
        assert rest[j] in xs[1..];
      }
    }
  }

  lemma WithoutNoDup<T(!new)>(xs: seq<T>, x: T)
    requires NoDup(xs)
    ensures NoDup(Without(xs, x))
  {
    WithoutKeepsOrder(xs, x, (a, b) => a != b);
  }
}
