/**
 * First-match search by id, the discipline every by-id lookup of the client
 * follows: the server returns a collection, and the entry taken is the first
 * one whose id equals the requested id.
 */
module Lookup {
  import opened Wrappers

  /** Some entry of `xs` has id `id`. */
  ghost predicate HasId<T>(xs: seq<T>, key: T -> nat, id: nat) {
    exists i :: 0 <= i < |xs| && key(xs[i]) == id
  }

  /** `i` is the position of the first entry of `xs` whose id is `id`. */
  ghost predicate IsFirstMatch<T>(xs: seq<T>, key: T -> nat, id: nat, i: int) {
    && 0 <= i < |xs|
    && key(xs[i]) == id
    && forall j :: 0 <= j < i ==> key(xs[j]) != id
  }

  /** `x` is the entry of `xs` at the first position whose id is `id`. */
  ghost predicate FirstMatch<T>(xs: seq<T>, key: T -> nat, id: nat, x: T) {
    exists i :: IsFirstMatch(xs, key, id, i) && xs[i] == x
  }

  /** The first match is unique, so a lookup specified by `FirstMatch` is determined. */
  lemma FirstMatchUnique<T>(xs: seq<T>, key: T -> nat, id: nat, x: T, y: T)
    requires FirstMatch(xs, key, id, x) && FirstMatch(xs, key, id, y)
    ensures x == y
  {
  }

  /** The position reached by a scan that has passed `i` entries without a match. */
  lemma FirstMatchAt<T>(xs: seq<T>, key: T -> nat, id: nat, i: nat)
    requires i < |xs| && key(xs[i]) == id
    requires forall j :: 0 <= j < i ==> key(xs[j]) != id
    ensures HasId(xs, key, id) && FirstMatch(xs, key, id, xs[i])
  {
  }

  /** Iterator `find`: the first entry of `xs` whose id is `id`, scanning in order. */
  function FindFirst<T>(xs: seq<T>, key: T -> nat, id: nat): (r: Option<T>)
    ensures r.Some? <==> HasId(xs, key, id)
    ensures r.Some? ==> FirstMatch(xs, key, id, r.value)
  {
    if xs == [] then None
    else if key(xs[0]) == id then
      assert IsFirstMatch(xs, key, id, 0);
      Some(xs[0])
    else
      var r := FindFirst(xs[1..], key, id);
      assert HasId(xs[1..], key, id) ==> HasId(xs, key, id) by {
        if HasId(xs[1..], key, id) {
          var i :| 0 <= i < |xs[1..]| && key(xs[1..][i]) == id;
          assert key(xs[i + 1]) == id;
        }
      }
      assert HasId(xs, key, id) ==> HasId(xs[1..], key, id) by {
        if HasId(xs, key, id) {
          var i :| 0 <= i < |xs| && key(xs[i]) == id;
          assert i != 0;
          assert key(xs[1..][i - 1]) == id;
        }
      }
      assert r.Some? ==> FirstMatch(xs, key, id, r.value) by {
        if r.Some? {
          var i :| IsFirstMatch(xs[1..], key, id, i) && xs[1..][i] == r.value;
          forall j | 0 <= j < i + 1 ensures key(xs[j]) != id {
            if j > 0 { assert xs[j] == xs[1..][j - 1]; }
          }
          assert IsFirstMatch(xs, key, id, i + 1);
        }
      }
      r
  }
}
