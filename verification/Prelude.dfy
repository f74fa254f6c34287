/** Small general-purpose vocabulary shared by the other modules. */
module Prelude {

  datatype Option<+T> = None | Some(value: T) {
    function GetOr(default: T): T {
      match this
      case Some(v) => v
      case None => default
    }
  }

  /** The status column that items, locations, organizations and memberships share. */
  datatype RecordStatus = Active | Archived

  function Min(a: real, b: real): real {
    if a <= b then a else b
  }

  function Max(a: real, b: real): real {
    if a >= b then a else b
  }

  function MaxNat(a: nat, b: nat): nat {
    if a >= b then a else b
  }

  /** `dict.get`. */
  function Find<K, V>(m: map<K, V>, k: K): Option<V> {
    if k in m then Some(m[k]) else None
  }

  /** A `defaultdict` read: absent keys count as zero. */
  function Lookup<K>(m: map<K, real>, k: K): real {
    if k in m then m[k] else 0.0
  }

  /** Concatenation of a list of lists, as repeated `extend`. */
  function Flatten<T>(parts: seq<seq<T>>): seq<T> {
    if parts == [] then [] else Flatten(parts[..|parts| - 1]) + parts[|parts| - 1]
  }

  /** Position k of a flattened list is position j of part i, the same (i, j) for every
      list of lists with the same shape. */
  function Locate(shape: seq<nat>, k: nat): (r: (nat, nat))
    requires k < Sum(shape)
    ensures r.0 < |shape| && r.1 < shape[r.0]
  {
    var n := |shape| - 1;
    if k < Sum(shape[..n]) then Locate(shape[..n], k) else (n, k - Sum(shape[..n]))
  }

  function Sum(shape: seq<nat>): nat {
    if shape == [] then 0 else Sum(shape[..|shape| - 1]) + shape[|shape| - 1]
  }

  ghost predicate HasShape<T>(parts: seq<seq<T>>, shape: seq<nat>) {
    |parts| == |shape| && forall i :: 0 <= i < |parts| ==> |parts[i]| == shape[i]
  }

  function ShapeOf<T>(parts: seq<seq<T>>): (shape: seq<nat>)
    ensures HasShape(parts, shape)
  {
    seq(|parts|, i requires 0 <= i < |parts| => |parts[i]|)
  }

  lemma {:induction false} FlattenAt<T>(parts: seq<seq<T>>, shape: seq<nat>, k: nat)
    requires HasShape(parts, shape) && k < Sum(shape)
    ensures |Flatten(parts)| == Sum(shape)
    ensures var at := Locate(shape, k); Flatten(parts)[k] == parts[at.0][at.1]
  {
    var n := |parts| - 1;
    FlattenLength(parts[..n], shape[..n]);
    if k < Sum(shape[..n]) {
      FlattenAt(parts[..n], shape[..n], k);
    }
  }

  lemma {:induction false} FlattenLength<T>(parts: seq<seq<T>>, shape: seq<nat>)
    requires HasShape(parts, shape)
    ensures |Flatten(parts)| == Sum(shape)
  {
    if parts != [] {
      FlattenLength(parts[..|parts| - 1], shape[..|shape| - 1]);
    }
  }

  /** Where position k of two flattened lists of one shape comes from. */
  lemma FlattenBoth<A, B>(a: seq<seq<A>>, b: seq<seq<B>>, k: nat) returns (i: nat, j: nat)
    requires |a| == |b| && forall i :: 0 <= i < |a| ==> |a[i]| == |b[i]|
    requires k < |Flatten(a)|
    ensures |Flatten(a)| == |Flatten(b)|
    ensures i < |a| && j < |a[i]| && Flatten(a)[k] == a[i][j] && Flatten(b)[k] == b[i][j]
  {
    var shape := ShapeOf(a);
    FlattenLength(a, shape);
    FlattenLength(b, shape);
    FlattenAt(a, shape, k);
    FlattenAt(b, shape, k);
    i, j := Locate(shape, k).0, Locate(shape, k).1;
  }

  lemma FlattenSameLength<A, B>(a: seq<seq<A>>, b: seq<seq<B>>)
    requires |a| == |b| && forall i :: 0 <= i < |a| ==> |a[i]| == |b[i]|
    ensures |Flatten(a)| == |Flatten(b)|
  {
    FlattenLength(a, ShapeOf(a));
    FlattenLength(b, ShapeOf(a));
  }

  lemma FlattenSnoc<T>(parts: seq<seq<T>>, last: seq<T>)
    ensures Flatten(parts + [last]) == Flatten(parts) + last
  {
    assert (parts + [last])[..|parts|] == parts;
  }

  lemma OccursTwice<T>(s: seq<T>, i: nat, j: nat)
    requires i < j < |s| && s[i] == s[j]
    ensures multiset(s)[s[i]] >= 2
  {
    assert s == s[..i] + [s[i]] + s[i + 1..j] + [s[j]] + s[j + 1..];
  }

  lemma {:induction false} DistinctOnce<T>(s: seq<T>, x: T)
    requires forall i, j :: 0 <= i < j < |s| ==> s[i] != s[j]
    ensures multiset(s)[x] <= 1
  {
    if s != [] {
      DistinctOnce(s[..|s| - 1], x);
      assert s == s[..|s| - 1] + [s[|s| - 1]];
    }
  }

  lemma Pick<T>(s: set<T>) returns (x: T)
    requires s != {}
    ensures x in s
  {
    x :| x in s;
  }

  /** An element that witnesses that one set does not contain the other. */
  lemma Beyond<T>(a: set<T>, b: set<T>) returns (x: T)
    requires !(a <= b)
    ensures x in a && x !in b
  {
    x :| x in a && x !in b;
  }
}
