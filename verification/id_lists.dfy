/**
 * Ordered record collections keyed by a string id, and the four ways the
 * dashboard changes them: prepend, append, filter out an id, and map over the
 * records carrying an id. Generic in the record type; `idOf` picks the id.
 */
module IdLists {
  import opened Wrappers

  /** No two records of `xs` share an id. */
  predicate UniqueIds<T>(xs: seq<T>, idOf: T -> string) {
    forall i, j :: 0 <= i < j < |xs| ==> idOf(xs[i]) != idOf(xs[j])
  }

  /** Some record of `xs` carries `id`. */
  predicate HasId<T>(xs: seq<T>, id: string, idOf: T -> string) {
    exists i :: 0 <= i < |xs| && idOf(xs[i]) == id
  }

  /** The number of records of `xs` carrying `id`. */
  function CountId<T>(xs: seq<T>, id: string, idOf: T -> string): nat {
    if xs == [] then 0 else (if idOf(xs[0]) == id then 1 else 0) + CountId(xs[1..], id, idOf)
  }

  /** `a` is `b` with some elements left out, the rest in their original order. */
  predicate IsSubsequence<T(==)>(a: seq<T>, b: seq<T>)
    decreases |b|
  {
    if a == [] then true
    else if b == [] then false
    else (a[0] == b[0] && IsSubsequence(a[1..], b[1..])) || IsSubsequence(a, b[1..])
  }

  /** `[x, ...xs]`: the new record goes first and the old ones follow unchanged. */
  function Prepend<T>(x: T, xs: seq<T>): (r: seq<T>)
    ensures |r| == |xs| + 1
    ensures r[0] == x && r[1..] == xs
  {
    [x] + xs
  }

  /** `[...xs, x]`: the old records keep their places and the new one goes last. */
  function Append<T>(xs: seq<T>, x: T): (r: seq<T>)
    ensures |r| == |xs| + 1
    ensures r[..|xs|] == xs && r[|xs|] == x
  {
    xs + [x]
  }

  /**
   * `xs.filter(x => idOf(x) !== id)`: no record with `id` is left, every other
   * record is kept, and the survivors keep their relative order.
   */
  function RemoveById<T(==)>(xs: seq<T>, id: string, idOf: T -> string): (r: seq<T>)
    ensures forall i :: 0 <= i < |r| ==> idOf(r[i]) != id
    ensures forall i :: 0 <= i < |xs| && idOf(xs[i]) != id ==> xs[i] in r
    ensures IsSubsequence(r, xs)
    ensures |r| == |xs| - CountId(xs, id, idOf)
  {
    if xs == [] then []
    else
      var rest := RemoveById(xs[1..], id, idOf);
      assert forall i :: 1 <= i < |xs| ==> xs[i] == xs[1..][i - 1];
      if idOf(xs[0]) == id then rest else [xs[0]] + rest
  }

  /**
   * `xs.map(x => idOf(x) === id ? f(x) : x)`: same length, the records with
   * `id` replaced by their update, every other record untouched in place.
   */
  function UpdateById<T>(xs: seq<T>, id: string, idOf: T -> string, f: T -> T): (r: seq<T>)
    ensures |r| == |xs|
    ensures forall i :: 0 <= i < |xs| && idOf(xs[i]) == id ==> r[i] == f(xs[i])
    ensures forall i :: 0 <= i < |xs| && idOf(xs[i]) != id ==> r[i] == xs[i]
  {
    if xs == [] then []
    else
      var rest := UpdateById(xs[1..], id, idOf, f);
      var r := [if idOf(xs[0]) == id then f(xs[0]) else xs[0]] + rest;
      assert forall i :: 1 <= i < |xs| ==> r[i] == rest[i - 1] && xs[i] == xs[1..][i - 1];
      r
  }

  /** `k` is the first position of `xs` holding a record with `id`. */
  predicate FirstWithId<T>(xs: seq<T>, k: int, id: string, idOf: T -> string) {
    && 0 <= k < |xs|
    && idOf(xs[k]) == id
    && forall j :: 0 <= j < k ==> idOf(xs[j]) != id
  }

  /** `xs.find(x => idOf(x) === id)`: the first record carrying `id`, if any. */
  function FindById<T(==)>(xs: seq<T>, id: string, idOf: T -> string): (r: Option<T>)
    ensures r.None? <==> !HasId(xs, id, idOf)
    ensures r.Some? ==> exists k :: FirstWithId(xs, k, id, idOf) && xs[k] == r.value
  {
    if xs == [] then None
    else if idOf(xs[0]) == id then
      assert FirstWithId(xs, 0, id, idOf);
      Some(xs[0])
    else
      var r := FindById(xs[1..], id, idOf);
      TailHasId(xs, id, idOf);
      if r.Some? then
        var k :| FirstWithId(xs[1..], k, id, idOf) && xs[1..][k] == r.value;
        assert forall j :: 1 <= j < k + 1 ==> xs[j] == xs[1..][j - 1];
        assert FirstWithId(xs, k + 1, id, idOf);
        r
      else
        r
  }

  /** A record of the tail is a record of the whole collection. */
  lemma TailHasId<T>(xs: seq<T>, id: string, idOf: T -> string)
    requires xs != []
    ensures HasId(xs[1..], id, idOf) ==> HasId(xs, id, idOf)
  {
    if HasId(xs[1..], id, idOf) {
      var i :| 0 <= i < |xs[1..]| && idOf(xs[1..][i]) == id;
      assert idOf(xs[i + 1]) == id;
    }
  }

  /** In a collection with unique ids, the record found for an id is the one at its index. */
  lemma FindUnique<T>(xs: seq<T>, k: nat, idOf: T -> string)
    requires k < |xs| && UniqueIds(xs, idOf)
    ensures FindById(xs, idOf(xs[k]), idOf) == Some(xs[k])
  {
    assert HasId(xs, idOf(xs[k]), idOf);
    var r := FindById(xs, idOf(xs[k]), idOf);
    var i :| FirstWithId(xs, i, idOf(xs[k]), idOf) && xs[i] == r.value;
    assert i == k;
  }

  /** Whatever the ids, the record found for an id is the one at its first position. */
  lemma FirstIsFound<T>(xs: seq<T>, k: int, id: string, idOf: T -> string)
    requires FirstWithId(xs, k, id, idOf)
    ensures FindById(xs, id, idOf) == Some(xs[k])
  {
    assert HasId(xs, id, idOf);
    var r := FindById(xs, id, idOf);
    var i :| FirstWithId(xs, i, id, idOf) && xs[i] == r.value;
    assert !(i < k) && !(k < i);
  }

  /** A record whose id was absent is the only one removed when its id is deleted after it was prepended. */
  lemma {:induction false} RemoveAfterPrepend<T>(x: T, xs: seq<T>, idOf: T -> string)
    requires !HasId(xs, idOf(x), idOf)
    ensures RemoveById(Prepend(x, xs), idOf(x), idOf) == xs
  {
    assert Prepend(x, xs)[1..] == xs;
    RemoveAbsent(xs, idOf(x), idOf);
  }

  /** Deleting the id of a freshly appended record restores the collection. */
  lemma {:induction false} RemoveAfterAppend<T>(xs: seq<T>, x: T, idOf: T -> string)
    requires !HasId(xs, idOf(x), idOf)
    ensures RemoveById(Append(xs, x), idOf(x), idOf) == xs
  {
    if xs == [] {
      assert Append(xs, x)[1..] == [];
    } else {
      assert Append(xs, x)[1..] == Append(xs[1..], x);
      TailHasId(xs, idOf(x), idOf);
      assert idOf(xs[0]) != idOf(x);
      RemoveAfterAppend(xs[1..], x, idOf);
    }
  }

  /** Deleting an id no record carries changes nothing. */
  lemma {:induction false} RemoveAbsent<T>(xs: seq<T>, id: string, idOf: T -> string)
    requires !HasId(xs, id, idOf)
    ensures RemoveById(xs, id, idOf) == xs
  {
    if xs != [] {
      assert idOf(xs[0]) != id;
      TailHasId(xs, id, idOf);
      RemoveAbsent(xs[1..], id, idOf);
      assert xs == [xs[0]] + xs[1..];
    }
  }

  /** Deleting the same id twice is the same as deleting it once. */
  lemma RemoveIdempotent<T>(xs: seq<T>, id: string, idOf: T -> string)
    ensures RemoveById(RemoveById(xs, id, idOf), id, idOf) == RemoveById(xs, id, idOf)
  {
    RemoveAbsent(RemoveById(xs, id, idOf), id, idOf);
  }

  /** With unique ids, deleting an id that is present removes exactly one record. */
  lemma {:induction false} RemoveUniqueShrinksByOne<T>(xs: seq<T>, id: string, idOf: T -> string)
    requires UniqueIds(xs, idOf) && HasId(xs, id, idOf)
    ensures |RemoveById(xs, id, idOf)| == |xs| - 1
  {
    CountUnique(xs, id, idOf);
  }

  /** With unique ids, a present id is carried by exactly one record. */
  lemma {:induction false} CountUnique<T>(xs: seq<T>, id: string, idOf: T -> string)
    requires UniqueIds(xs, idOf) && HasId(xs, id, idOf)
    ensures CountId(xs, id, idOf) == 1
  {
    var tail := xs[1..];
    assert UniqueIds(tail, idOf) by {
      forall i, j | 0 <= i < j < |tail| ensures idOf(tail[i]) != idOf(tail[j]) {
        assert tail[i] == xs[i + 1] && tail[j] == xs[j + 1];
      }
    }
    if idOf(xs[0]) == id {
      TailHasId(xs, id, idOf);
      CountAbsent(tail, id, idOf);
    } else {
      var i :| 0 <= i < |xs| && idOf(xs[i]) == id;
      assert idOf(tail[i - 1]) == id;
      CountUnique(tail, id, idOf);
    }
  }

  /** An absent id is carried by no record. */
  lemma {:induction false} CountAbsent<T>(xs: seq<T>, id: string, idOf: T -> string)
    requires !HasId(xs, id, idOf)
    ensures CountId(xs, id, idOf) == 0
  {
    if xs != [] {
      assert idOf(xs[0]) != id;
      TailHasId(xs, id, idOf);
      CountAbsent(xs[1..], id, idOf);
    }
  }

  /** Deleting keeps ids unique: the survivors are a subsequence of a collection without duplicates. */
  lemma RemovePreservesUnique<T>(xs: seq<T>, id: string, idOf: T -> string)
    requires UniqueIds(xs, idOf)
    ensures UniqueIds(RemoveById(xs, id, idOf), idOf)
  {
    SubsequencePreservesUnique(RemoveById(xs, id, idOf), xs, idOf);
  }

  /** A subsequence of a collection with unique ids has unique ids. */
  lemma {:induction false} SubsequencePreservesUnique<T>(a: seq<T>, b: seq<T>, idOf: T -> string)
    requires IsSubsequence(a, b) && UniqueIds(b, idOf)
    ensures UniqueIds(a, idOf)
    decreases |b|
  {
    if a != [] {
      var tb := b[1..];
      assert UniqueIds(tb, idOf) by {
        forall i, j | 0 <= i < j < |tb| ensures idOf(tb[i]) != idOf(tb[j]) {
          assert tb[i] == b[i + 1] && tb[j] == b[j + 1];
        }
      }
      if a[0] == b[0] && IsSubsequence(a[1..], tb) {
        SubsequencePreservesUnique(a[1..], tb, idOf);
        SubsequenceMembers(a[1..], tb);
        forall j | 0 < j < |a| ensures idOf(a[0]) != idOf(a[j]) {
          assert a[j] == a[1..][j - 1];
          var k :| 0 <= k < |tb| && tb[k] == a[j];
          assert b[k + 1] == a[j];
        }
        forall i, j | 0 <= i < j < |a| ensures idOf(a[i]) != idOf(a[j]) {
          if i > 0 {
            assert a[i] == a[1..][i - 1] && a[j] == a[1..][j - 1];
          }
        }
      } else {
        SubsequencePreservesUnique(a, tb, idOf);
      }
    }
  }

  /** Every collection is a subsequence of itself. */
  lemma {:induction false} SubsequenceReflexive<T>(xs: seq<T>)
    ensures IsSubsequence(xs, xs)
  {
    if xs != [] {
      SubsequenceReflexive(xs[1..]);
    }
  }

  /** Every element of a subsequence occurs in the sequence it was drawn from. */
  lemma {:induction false} SubsequenceMembers<T>(a: seq<T>, b: seq<T>)
    requires IsSubsequence(a, b)
    ensures forall i :: 0 <= i < |a| ==> exists k :: 0 <= k < |b| && b[k] == a[i]
    decreases |b|
  {
    if a != [] {
      if a[0] == b[0] && IsSubsequence(a[1..], b[1..]) {
        SubsequenceMembers(a[1..], b[1..]);
        forall i | 0 <= i < |a| ensures exists k :: 0 <= k < |b| && b[k] == a[i] {
          if i == 0 {
            assert b[0] == a[0];
          } else {
            assert a[i] == a[1..][i - 1];
            var k :| 0 <= k < |b[1..]| && b[1..][k] == a[i];
            assert b[k + 1] == a[i];
          }
        }
      } else {
        SubsequenceMembers(a, b[1..]);
        forall i | 0 <= i < |a| ensures exists k :: 0 <= k < |b| && b[k] == a[i] {
          var k :| 0 <= k < |b[1..]| && b[1..][k] == a[i];
          assert b[k + 1] == a[i];
        }
      }
    }
  }

  /** Prepending a record with a fresh id keeps ids unique. */
  lemma PrependPreservesUnique<T>(x: T, xs: seq<T>, idOf: T -> string)
    requires UniqueIds(xs, idOf) && !HasId(xs, idOf(x), idOf)
    ensures UniqueIds(Prepend(x, xs), idOf)
  {
    var r := Prepend(x, xs);
    forall i, j | 0 <= i < j < |r| ensures idOf(r[i]) != idOf(r[j]) {
      assert r[j] == xs[j - 1];
      if i > 0 {
        assert r[i] == xs[i - 1];
      }
    }
  }

  /** Appending a record with a fresh id keeps ids unique. */
  lemma AppendPreservesUnique<T>(xs: seq<T>, x: T, idOf: T -> string)
    requires UniqueIds(xs, idOf) && !HasId(xs, idOf(x), idOf)
    ensures UniqueIds(Append(xs, x), idOf)
  {
    var r := Append(xs, x);
    forall i, j | 0 <= i < j < |r| ensures idOf(r[i]) != idOf(r[j]) {
      assert r[i] == xs[i];
      if j < |xs| {
        assert r[j] == xs[j];
      }
    }
  }

  /**
   * An update that never changes a record's id leaves the id at every
   * position as it was, so uniqueness of ids is kept.
   */
  lemma UpdatePreservesIds<T>(xs: seq<T>, id: string, idOf: T -> string, f: T -> T)
    requires forall x :: idOf(f(x)) == idOf(x)
    ensures forall i :: 0 <= i < |xs| ==> idOf(UpdateById(xs, id, idOf, f)[i]) == idOf(xs[i])
    ensures UniqueIds(xs, idOf) ==> UniqueIds(UpdateById(xs, id, idOf, f), idOf)
  {
  }

  /**
   * In a collection with unique ids, an update that leaves the record at
   * position `k` as it is, applied to that record's id, changes nothing.
   */
  lemma UpdateUniqueFixpoint<T>(xs: seq<T>, k: nat, idOf: T -> string, f: T -> T)
    requires k < |xs| && UniqueIds(xs, idOf) && f(xs[k]) == xs[k]
    ensures UpdateById(xs, idOf(xs[k]), idOf, f) == xs
  {
    var r := UpdateById(xs, idOf(xs[k]), idOf, f);
    forall i | 0 <= i < |xs| ensures r[i] == xs[i] {
      if idOf(xs[i]) == idOf(xs[k]) {
        assert i == k;
      }
    }
  }

  /** An update that leaves every matching record as it is leaves the whole collection as it is. */
  lemma UpdateFixpoint<T>(xs: seq<T>, id: string, idOf: T -> string, f: T -> T)
    requires forall i :: 0 <= i < |xs| && idOf(xs[i]) == id ==> f(xs[i]) == xs[i]
    ensures UpdateById(xs, id, idOf, f) == xs
  {
  }
}
