/**
 * The wishlist updater of `App.tsx`: `toggleWishlist` drops every
 * occurrence of a product id that is present and appends one that is not.
 */
module Wishlist {

  /** The filter of `toggleWishlist`: every occurrence of `x` is dropped, the rest keeps its order. */
  function RemoveAll(w: seq<string>, x: string): (r: seq<string>)
    ensures x !in r
    ensures forall y :: y != x ==> multiset(r)[y] == multiset(w)[y]
    ensures forall i :: 0 <= i < |r| ==> r[i] in w
    ensures x !in w ==> r == w
  {
    if w == [] then []
    else
      assert w == [w[0]] + w[1..];
      if w[0] == x then RemoveAll(w[1..], x)
      else [w[0]] + RemoveAll(w[1..], x)
  }

  /**
   * `toggleWishlist`: the membership of `x` flips, every other id keeps
   * its multiplicity, a present `x` is filtered out and an absent one is
   * appended at the end.
   */
  function Toggle(w: seq<string>, x: string): (r: seq<string>)
    ensures x in r <==> x !in w
    ensures forall y :: y != x ==> multiset(r)[y] == multiset(w)[y]
    ensures x in w ==> r == RemoveAll(w, x)
    ensures x !in w ==> r == w + [x]
  {
    if x in w then RemoveAll(w, x)
    else
      assert multiset(w + [x]) == multiset(w) + multiset{x};
      w + [x]
  }

  /** No id occurs twice. */
  ghost predicate NoDuplicates(w: seq<string>) {
    forall i, j :: 0 <= i < j < |w| ==> w[i] != w[j]
  }

  /** The filter keeps the order: it commutes with concatenation. */
  lemma {:induction false} RemoveAllDistributes(a: seq<string>, b: seq<string>, x: string)
    ensures RemoveAll(a + b, x) == RemoveAll(a, x) + RemoveAll(b, x)
  {
    if a == [] {
      assert a + b == b;
    } else {
      assert (a + b)[1..] == a[1..] + b;
      RemoveAllDistributes(a[1..], b, x);
    }
  }

  /**
   * Toggling twice restores the membership of `x` and leaves every other
   * id exactly as often as before; when `x` was absent the list is back
   * to what it was, and when it was present it ends up once, at the end.
   */
  lemma {:induction false} ToggleTwice(w: seq<string>, x: string)
    ensures x in Toggle(Toggle(w, x), x) <==> x in w
    ensures forall y :: y != x ==> multiset(Toggle(Toggle(w, x), x))[y] == multiset(w)[y]
    ensures x !in w ==> Toggle(Toggle(w, x), x) == w
    ensures x in w ==> Toggle(Toggle(w, x), x) == RemoveAll(w, x) + [x]
  {
    if x !in w {
      RemoveAllAppended(w, x);
    }
  }

  /** Removing an id that was just appended to a list without it gives the list back. */
  lemma {:induction false} RemoveAllAppended(w: seq<string>, x: string)
    requires x !in w
    ensures RemoveAll(w + [x], x) == w
  {
    if w == [] {
      assert [x][1..] == [];
    } else {
      assert (w + [x])[1..] == w[1..] + [x];
      RemoveAllAppended(w[1..], x);
    }
  }

  /** A wishlist without repeated ids stays so under `toggleWishlist`. */
  lemma {:induction false} ToggleKeepsNoDuplicates(w: seq<string>, x: string)
    requires NoDuplicates(w)
    ensures NoDuplicates(Toggle(w, x))
  {
    if x in w {
      RemoveAllKeepsNoDuplicates(w, x);
    }
  }

  lemma {:induction false} RemoveAllKeepsNoDuplicates(w: seq<string>, x: string)
    requires NoDuplicates(w)
    ensures NoDuplicates(RemoveAll(w, x))
  {
    if w != [] {
      var tail := w[1..];
      assert NoDuplicates(tail) by {
        forall i, j | 0 <= i < j < |tail| ensures tail[i] != tail[j] {
          assert tail[i] == w[i + 1] && tail[j] == w[j + 1];
        }
      }
      RemoveAllKeepsNoDuplicates(tail, x);
      if w[0] != x {
        var rest := RemoveAll(tail, x);
        assert w[0] !in tail by {
          forall j | 0 <= j < |tail| ensures tail[j] != w[0] {
            assert tail[j] == w[j + 1];
          }
        }
        assert w[0] !in rest;
        var r := [w[0]] + rest;
        forall i, j | 0 <= i < j < |r| ensures r[i] != r[j] {
          if i == 0 {
            assert r[j] == rest[j - 1];
          } else {
            assert r[i] == rest[i - 1] && r[j] == rest[j - 1];
          }
        }
      }
    }
  }
}
