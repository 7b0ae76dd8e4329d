/**
 The list of records the page shows, and the two edits the page makes to it:
 appending the record the server created, and keeping, in order, only the
 records whose `id` differs from the one just deleted.
 */
module FichaList {
  import opened Fichas

  /** `a` is obtained from `b` by deleting some elements: `b`'s order is kept. */
  ghost predicate SubseqOf<T>(a: seq<T>, b: seq<T>)
    decreases |b|
  {
    if |a| == 0 then true
    else if |b| == 0 then false
    else (a[0] == b[0] && SubseqOf(a[1..], b[1..])) || SubseqOf(a, b[1..])
  }

  /** Some record in `xs` carries `id`. */
  predicate HasId(xs: seq<Ficha>, id: Id)
  {
    exists k :: 0 <= k < |xs| && xs[k].id == id
  }

  /**
   The records of `xs` whose `id` differs from `id`, front to back: exactly
   the members of `xs` with another id, each as often as in `xs`, in
   `xs`'s order.
   */
  function Remove(xs: seq<Ficha>, id: Id): (r: seq<Ficha>)
    ensures !HasId(r, id)
    ensures SubseqOf(r, xs)
    decreases |xs|
  {
    if |xs| == 0 then []
    else if xs[0].id != id then
      var rest := Remove(xs[1..], id);
      assert xs == [xs[0]] + xs[1..];
      [xs[0]] + rest
    else
      var rest := Remove(xs[1..], id);
      assert xs == [xs[0]] + xs[1..];
      rest
  }

  /** Each record with another id is kept as many times as it occurs; the others not at all. */
  lemma {:induction false} RemoveCounts(xs: seq<Ficha>, id: Id, f: Ficha)
    ensures multiset(Remove(xs, id))[f] == if f.id != id then multiset(xs)[f] else 0
    decreases |xs|
  {
    if |xs| > 0 {
      RemoveCounts(xs[1..], id, f);
      assert xs == [xs[0]] + xs[1..];
      assert multiset(xs) == multiset{xs[0]} + multiset(xs[1..]);
    }
  }

  /** A record is kept exactly when it was there and carries another id. */
  lemma RemoveMembership(xs: seq<Ficha>, id: Id, f: Ficha)
    ensures f in Remove(xs, id) <==> f in xs && f.id != id
  {
    RemoveCounts(xs, id, f);
    assert f in Remove(xs, id) <==> multiset(Remove(xs, id))[f] > 0;
    assert f in xs <==> multiset(xs)[f] > 0;
  }

  /** Deleting an id no record carries leaves the list unchanged. */
  lemma {:induction false} RemoveAbsent(xs: seq<Ficha>, id: Id)
    requires !HasId(xs, id)
    ensures Remove(xs, id) == xs
    decreases |xs|
  {
    if |xs| > 0 {
      assert !HasId(xs[1..], id) by {
        forall k | 0 <= k < |xs[1..]|
          ensures xs[1..][k].id != id
        {
          assert xs[1..][k] == xs[k + 1];
        }
      }
      RemoveAbsent(xs[1..], id);
      assert xs == [xs[0]] + xs[1..];
    }
  }

  /** Deleting the same id twice is the same as deleting it once. */
  lemma RemoveIdempotent(xs: seq<Ficha>, id: Id)
    ensures Remove(Remove(xs, id), id) == Remove(xs, id)
  {
    RemoveAbsent(Remove(xs, id), id);
  }

  /** Filtering a concatenation filters each part. */
  lemma {:induction false} RemoveConcat(a: seq<Ficha>, b: seq<Ficha>, id: Id)
    ensures Remove(a + b, id) == Remove(a, id) + Remove(b, id)
    decreases |a|
  {
    if |a| == 0 {
      assert a + b == b;
    } else {
      assert (a + b)[1..] == a[1..] + b;
      assert (a + b)[0] == a[0];
      RemoveConcat(a[1..], b, id);
    }
  }

  /** Deletions of two ids can happen in either order. */
  lemma {:induction false} RemoveCommute(xs: seq<Ficha>, i: Id, j: Id)
    ensures Remove(Remove(xs, i), j) == Remove(Remove(xs, j), i)
    decreases |xs|
  {
    if |xs| > 0 {
      RemoveCommute(xs[1..], i, j);
    }
  }

  /** Deleting the id of a record just appended gives back the earlier list, filtered. */
  lemma RemoveAfterAppend(xs: seq<Ficha>, f: Ficha)
    ensures Remove(xs + [f], f.id) == Remove(xs, f.id)
  {
    RemoveConcat(xs, [f], f.id);
  }

  /** A subsequence whose records all avoid `id` is no longer than `Remove(xs, id)`. */
  lemma {:induction false} SubseqAvoidingIsShorter(r: seq<Ficha>, xs: seq<Ficha>, id: Id)
    requires SubseqOf(r, xs)
    requires !HasId(r, id)
    ensures |r| <= |Remove(xs, id)|
    decreases |xs|
  {
    if |r| > 0 {
      if r[0] == xs[0] && SubseqOf(r[1..], xs[1..]) {
        SubseqAvoidingIsShorter(r[1..], xs[1..], id);
      } else {
        SubseqAvoidingIsShorter(r, xs[1..], id);
      }
    }
  }

  /**
   `Remove` is the only way to keep every record with another id, in order:
   a subsequence of `xs` that avoids `id` and is as long as `Remove(xs, id)`
   is `Remove(xs, id)`.
   */
  lemma {:induction false} RemoveUnique(r: seq<Ficha>, xs: seq<Ficha>, id: Id)
    requires SubseqOf(r, xs)
    requires !HasId(r, id)
    requires |r| == |Remove(xs, id)|
    ensures r == Remove(xs, id)
    decreases |xs|
  {
    if |xs| == 0 {
    } else if |r| == 0 {
    } else if xs[0].id == id {
      assert !(r[0] == xs[0]);
      RemoveUnique(r, xs[1..], id);
    } else if r[0] == xs[0] && SubseqOf(r[1..], xs[1..]) {
      RemoveUnique(r[1..], xs[1..], id);
    } else {
      SubseqAvoidingIsShorter(r, xs[1..], id);
      assert false;
    }
  }

  /**
   The front-to-back pass `Array.prototype.filter` makes over the list,
   keeping each record whose id differs from `id`.
   */
  method FilterById(xs: seq<Ficha>, id: Id) returns (ys: seq<Ficha>)
    ensures ys == Remove(xs, id)
  {
    ys := [];
    var i := 0;
    while i < |xs|
      invariant 0 <= i <= |xs|
      invariant Remove(xs, id) == ys + Remove(xs[i..], id)
    {
      assert xs[i..][1..] == xs[i + 1..];
      if xs[i].id != id {
        ys := ys + [xs[i]];
      }
      i := i + 1;
    }
  }
}
