/** A JavaScript `Set` as the scope tree uses it: a collection without
    duplicates whose iteration order is the order of insertion. */
module OrderedSets {

  ghost predicate NoDup<X>(s: seq<X>) {
    forall i, j :: 0 <= i < j < |s| ==> s[i] != s[j]
  }

  /** `set.add(x)`: appends `x` unless it is already present. */
  function Add<X(==,!new)>(s: seq<X>, x: X): (r: seq<X>)
    ensures x in r
    ensures forall y :: y in r <==> y in s || y == x
    ensures x in s ==> r == s
    ensures x !in s ==> r == s + [x]
    ensures NoDup(s) ==> NoDup(r)
  {
    if x in s then s else s + [x]
  }

  /** `set.delete(x)`: removes `x`, keeping the others in insertion order. */
  function Delete<X(==,!new)>(s: seq<X>, x: X): (r: seq<X>)
    ensures forall y :: y in r <==> y in s && y != x
    ensures |r| <= |s|
    ensures x in s ==> |r| < |s|
    ensures x !in s ==> r == s
    ensures NoDup(s) ==> NoDup(r)
  {
    if s == [] then []
    else if s[0] == x then Delete(s[1..], x)
    else
      var rest := Delete(s[1..], x);
      assert NoDup(s) ==> s[0] !in s[1..] && NoDup(s[1..]) by {
        if NoDup(s) {
          forall k | 0 <= k < |s[1..]| ensures s[1..][k] != s[0] { assert s[1..][k] == s[k + 1]; }
        }
      }
      [s[0]] + rest
  }

  /** Deleting a member of a set removes its one occurrence and keeps every
      other element in place, in insertion order. */
  lemma DeleteKeepsOrder<X(!new)>(s: seq<X>, x: X)
    requires NoDup(s) && x in s
    ensures exists i :: 0 <= i < |s| && s[i] == x && Delete(s, x) == s[..i] + s[i + 1..]
  {
    var i :| 0 <= i < |s| && s[i] == x;
    assert x !in s[..i] by {
      forall k | 0 <= k < i ensures s[..i][k] != x { assert s[..i][k] == s[k]; }
    }
    var after := s[i + 1..];
    assert x !in after by {
      forall k | 0 <= k < |after| ensures after[k] != x { assert after[k] == s[i + 1 + k]; }
    }
    DeleteOccurrence(s, x, i);
  }

  /** Deleting an element that occurs only at position `i` cuts out that position. */
  lemma {:induction false} DeleteOccurrence<X(!new)>(s: seq<X>, x: X, i: nat)
    requires i < |s| && s[i] == x && x !in s[..i] && x !in s[i + 1..]
    ensures Delete(s, x) == s[..i] + s[i + 1..]
  {
    if i == 0 {
      assert s[1..] == s[i + 1..];
    } else {
      assert s[0] in s[..i];
      var t := s[1..];
      assert t[..i - 1] == s[1..i] && t[i..] == s[i + 1..];
      assert x !in s[1..i] by {
        forall k | 0 <= k < i - 1 ensures s[1..i][k] != x { assert s[1..i][k] == s[..i][k + 1]; }
      }
      DeleteOccurrence(t, x, i - 1);
      assert s[..i] == [s[0]] + t[..i - 1];
    }
  }

  /** Adding a new element and deleting it again restores the set, order included. */
  lemma DeleteAfterAdd<X(!new)>(s: seq<X>, x: X)
    requires x !in s
    ensures Delete(Add(s, x), x) == s
  {
    DeleteLast(s, x);
  }

  lemma {:induction false} DeleteLast<X(!new)>(s: seq<X>, x: X)
    requires x !in s
    ensures Delete(s + [x], x) == s
  {
    if s == [] {
      assert [x][1..] == [];
    } else {
      assert (s + [x])[1..] == s[1..] + [x];
      DeleteLast(s[1..], x);
    }
  }

  /** Adds every element of `xs` in order. */
  function AddAll<X(==,!new)>(s: seq<X>, xs: seq<X>): (r: seq<X>)
    ensures forall y :: y in r <==> y in s || y in xs
    ensures NoDup(s) ==> NoDup(r)
    decreases |xs|
  {
    if xs == [] then s else AddAll(Add(s, xs[0]), xs[1..])
  }

  /** `s` after every element of `gone` has been deleted from it: the
      others stay, in insertion order. */
  function Without<X(==,!new)>(s: seq<X>, gone: seq<X>): (r: seq<X>)
    ensures forall y :: y in r <==> y in s && y !in gone
    ensures |r| <= |s|
    ensures gone == [] ==> r == s
    ensures NoDup(s) ==> NoDup(r)
  {
    if s == [] then []
    else
      var rest := Without(s[1..], gone);
      assert NoDup(s) ==> s[0] !in s[1..] && NoDup(s[1..]) by {
        if NoDup(s) {
          forall k | 0 <= k < |s[1..]| ensures s[1..][k] != s[0] { assert s[1..][k] == s[k + 1]; }
        }
      }
      if s[0] in gone then rest else [s[0]] + rest
  }

  /** Any two elements of `r` appear in `s` in the same order. */
  ghost predicate KeepsOrder<X>(r: seq<X>, s: seq<X>) {
    forall i, j :: 0 <= i < j < |r| ==> exists p, q :: 0 <= p < q < |s| && s[p] == r[i] && s[q] == r[j]
  }

  /** `Without` keeps the order of what stays. */
  lemma {:induction false} WithoutKeepsOrder<X(!new)>(s: seq<X>, gone: seq<X>)
    ensures KeepsOrder(Without(s, gone), s)
  {
    if s != [] {
      var rest := Without(s[1..], gone);
      var r := Without(s, gone);
      WithoutKeepsOrder(s[1..], gone);
      assert KeepsOrder(rest, s[1..]);
      forall i, j | 0 <= i < j < |r|
        ensures exists p, q :: 0 <= p < q < |s| && s[p] == r[i] && s[q] == r[j]
      {
        if s[0] in gone {
          assert r == rest;
          var p, q :| 0 <= p < q < |s[1..]| && s[1..][p] == rest[i] && s[1..][q] == rest[j];
          assert s[p + 1] == r[i] && s[q + 1] == r[j];
        } else if i == 0 {
          assert r == [s[0]] + rest && r[j] == rest[j - 1];
          assert r[j] in rest;
          var q :| 0 <= q < |s[1..]| && s[1..][q] == r[j];
          assert s[0] == r[0] && s[q + 1] == r[j];
        } else {
          assert r == [s[0]] + rest && r[i] == rest[i - 1] && r[j] == rest[j - 1];
          var p, q :| 0 <= p < q < |s[1..]| && s[1..][p] == rest[i - 1] && s[1..][q] == rest[j - 1];
          assert s[p + 1] == r[i] && s[q + 1] == r[j];
        }
      }
    }
  }

  /** Deleting the elements of one list is deleting each of them in turn. */
  lemma {:induction false} WithoutOne<X(!new)>(s: seq<X>, x: X)
    ensures Without(s, [x]) == Delete(s, x)
  {
    if s != [] {
      WithoutOne(s[1..], x);
    }
  }

  /** Deleting the elements of `a` and then those of `b` is deleting those
      of both at once. */
  lemma {:induction false} WithoutWithout<X(!new)>(s: seq<X>, a: seq<X>, b: seq<X>)
    ensures Without(Without(s, a), b) == Without(s, b + a)
  {
    if s != [] {
      WithoutWithout(s[1..], a, b);
      if s[0] !in a {
        assert Without(s, a) == [s[0]] + Without(s[1..], a);
        assert Without(s, a)[1..] == Without(s[1..], a);
      }
    }
  }

  /** The elements of `s` from the last inserted to the first: the order in
      which `pop` hands out the elements of a snapshot `[...set]`. */
  function Reversed<X>(s: seq<X>): (r: seq<X>)
    ensures |r| == |s|
    ensures forall i :: 0 <= i < |s| ==> r[i] == s[|s| - 1 - i]
  {
    seq(|s|, i requires 0 <= i < |s| => s[|s| - 1 - i])
  }
}
