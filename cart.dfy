/**
 * The cart updaters of `App.tsx` (`addToCart`, `updateCartItem`,
 * `updateCartItemSize`, `removeFromCart`), each a function from the old
 * list of lines to the new one, and what they do to the identity key
 * `(productId, size, isGift)` of the lines, a missing gift flag counting
 * as `false`.
 */
module Cart {
  import opened Types
  import opened SeqFacts

  /** The identity of a cart line. */
  datatype Key = Key(productId: string, size: string, isGift: bool)

  /** The gift flag as the key sees it: a missing flag counts as `false`. */
  function GiftFlag(flag: Option<bool>): (b: bool)
    ensures b <==> flag == Some(true)
  {
    match flag
    case None => false
    case Some(g) => g
  }

  function KeyOf(line: CartLine): Key {
    Key(line.productId, line.size, GiftFlag(line.isGift))
  }

  /** No two lines share a key. */
  ghost predicate UniqueKeys(c: seq<CartLine>) {
    forall i, j :: 0 <= i < j < |c| ==> KeyOf(c[i]) != KeyOf(c[j])
  }

  ghost predicate HasKey(c: seq<CartLine>, k: Key) {
    exists i :: 0 <= i < |c| && KeyOf(c[i]) == k
  }

  /** Every line has a positive quantity. */
  ghost predicate AllPositive(c: seq<CartLine>) {
    forall i :: 0 <= i < |c| ==> c[i].quantity >= 1
  }

  /** The number of lines with key `k`. */
  ghost function Count(c: seq<CartLine>, k: Key): nat {
    if c == [] then 0 else (if KeyOf(c[0]) == k then 1 else 0) + Count(c[1..], k)
  }

  /** The total quantity over the lines with key `k`. */
  ghost function Quantity(c: seq<CartLine>, k: Key): int {
    if c == [] then 0 else (if KeyOf(c[0]) == k then c[0].quantity else 0) + Quantity(c[1..], k)
  }

  /** The lookup of `addToCart`: the position of the first line with key `k`. */
  function FindIndex(c: seq<CartLine>, k: Key): (r: Option<nat>)
    ensures r.None? <==> !HasKey(c, k)
    ensures r.Some? ==> r.value < |c| && KeyOf(c[r.value]) == k
    ensures r.Some? ==> forall j :: 0 <= j < r.value ==> KeyOf(c[j]) != k
  {
    if c == [] then None
    else if KeyOf(c[0]) == k then Some(0)
    else
      match FindIndex(c[1..], k)
      case None => None
      case Some(i) => Some(i + 1)
  }

  /** The merge of `addToCart`: every line with key `k` grows by `quantity`. */
  function IncrementMatching(c: seq<CartLine>, k: Key, quantity: int): (r: seq<CartLine>)
    ensures |r| == |c|
    ensures forall i :: 0 <= i < |c| && KeyOf(c[i]) == k ==> r[i] == c[i].(quantity := c[i].quantity + quantity)
    ensures forall i :: 0 <= i < |c| && KeyOf(c[i]) != k ==> r[i] == c[i]
  {
    if c == [] then []
    else
      var head := if KeyOf(c[0]) == k then c[0].(quantity := c[0].quantity + quantity) else c[0];
      [head] + IncrementMatching(c[1..], k, quantity)
  }

  /**
   * `addToCart`: when some line has the key, every such line's quantity
   * grows by `quantity` and nothing else changes; otherwise one new line
   * is appended at the end.
   */
  function AddToCart(c: seq<CartLine>, productId: string, size: string, quantity: int, isGift: bool): (r: seq<CartLine>)
    ensures HasKey(c, Key(productId, size, isGift)) ==>
      && |r| == |c|
      && (forall i :: 0 <= i < |c| && KeyOf(c[i]) == Key(productId, size, isGift) ==>
            r[i] == c[i].(quantity := c[i].quantity + quantity))
      && (forall i :: 0 <= i < |c| && KeyOf(c[i]) != Key(productId, size, isGift) ==> r[i] == c[i])
    ensures !HasKey(c, Key(productId, size, isGift)) ==>
      r == c + [CartLine(productId, quantity, size, Some(isGift))]
  {
    var k := Key(productId, size, isGift);
    if FindIndex(c, k).Some? then IncrementMatching(c, k, quantity)
    else c + [CartLine(productId, quantity, size, Some(isGift))]
  }

  /** `updateCartItem`: the matching lines take the absolute `quantity`, which is not checked. */
  function UpdateCartItem(c: seq<CartLine>, productId: string, size: string, quantity: int, isGift: bool): (r: seq<CartLine>)
    ensures |r| == |c|
    ensures forall i :: 0 <= i < |c| && KeyOf(c[i]) == Key(productId, size, isGift) ==> r[i] == c[i].(quantity := quantity)
    ensures forall i :: 0 <= i < |c| && KeyOf(c[i]) != Key(productId, size, isGift) ==> r[i] == c[i]
  {
    if c == [] then []
    else
      var head := if KeyOf(c[0]) == Key(productId, size, isGift) then c[0].(quantity := quantity) else c[0];
      [head] + UpdateCartItem(c[1..], productId, size, quantity, isGift)
  }

  /** `updateCartItemSize`: the lines with key `(productId, oldSize, isGift)` are renamed to `newSize`. */
  function UpdateCartItemSize(c: seq<CartLine>, productId: string, oldSize: string, newSize: string, isGift: bool): (r: seq<CartLine>)
    ensures |r| == |c|
    ensures forall i :: 0 <= i < |c| && KeyOf(c[i]) == Key(productId, oldSize, isGift) ==> r[i] == c[i].(size := newSize)
    ensures forall i :: 0 <= i < |c| && KeyOf(c[i]) != Key(productId, oldSize, isGift) ==> r[i] == c[i]
  {
    if c == [] then []
    else
      var head := if KeyOf(c[0]) == Key(productId, oldSize, isGift) then c[0].(size := newSize) else c[0];
      [head] + UpdateCartItemSize(c[1..], productId, oldSize, newSize, isGift)
  }

  /** `removeFromCart`: keeps exactly the lines whose key differs. */
  function RemoveFromCart(c: seq<CartLine>, productId: string, size: string, isGift: bool): (r: seq<CartLine>)
    ensures forall i :: 0 <= i < |r| ==> KeyOf(r[i]) != Key(productId, size, isGift) && r[i] in c
    ensures forall i :: 0 <= i < |c| && KeyOf(c[i]) != Key(productId, size, isGift) ==> c[i] in r
    ensures |r| + Count(c, Key(productId, size, isGift)) == |c|
    ensures !HasKey(c, Key(productId, size, isGift)) ==> r == c
  {
    if c == [] then []
    else if KeyOf(c[0]) == Key(productId, size, isGift) then RemoveFromCart(c[1..], productId, size, isGift)
    else [c[0]] + RemoveFromCart(c[1..], productId, size, isGift)
  }

  // ---------------------------------------------------------------------
  // Counting lines by key

  lemma {:induction false} CountZeroIffAbsent(c: seq<CartLine>, k: Key)
    ensures Count(c, k) == 0 <==> !HasKey(c, k)
    ensures Count(c, k) == 0 ==> Quantity(c, k) == 0
  {
    if c != [] {
      CountZeroIffAbsent(c[1..], k);
      if HasKey(c[1..], k) {
        var i :| 0 <= i < |c[1..]| && KeyOf(c[1..][i]) == k;
        assert KeyOf(c[i + 1]) == k;
      }
      if HasKey(c, k) && KeyOf(c[0]) != k {
        var i :| 0 <= i < |c| && KeyOf(c[i]) == k;
        assert KeyOf(c[1..][i - 1]) == k;
      }
    }
  }

  lemma {:induction false} CountAppend(a: seq<CartLine>, b: seq<CartLine>, k: Key)
    ensures Count(a + b, k) == Count(a, k) + Count(b, k)
    ensures Quantity(a + b, k) == Quantity(a, k) + Quantity(b, k)
  {
    if a == [] {
      assert a + b == b;
    } else {
      assert (a + b)[1..] == a[1..] + b;
      CountAppend(a[1..], b, k);
    }
  }

  /** A cart without duplicate keys has at most one line per key. */
  lemma {:induction false} UniqueKeysAtMostOne(c: seq<CartLine>, k: Key)
    requires UniqueKeys(c)
    ensures Count(c, k) <= 1
  {
    if c != [] {
      assert UniqueKeys(c[1..]) by {
        forall i, j | 0 <= i < j < |c[1..]| ensures KeyOf(c[1..][i]) != KeyOf(c[1..][j]) {
          assert c[1..][i] == c[i + 1] && c[1..][j] == c[j + 1];
        }
      }
      UniqueKeysAtMostOne(c[1..], k);
      if KeyOf(c[0]) == k {
        assert !HasKey(c[1..], k) by {
          forall i | 0 <= i < |c[1..]| ensures KeyOf(c[1..][i]) != k {
            assert c[1..][i] == c[i + 1];
          }
        }
        CountZeroIffAbsent(c[1..], k);
      }
    }
  }

  lemma {:induction false} IncrementCounts(c: seq<CartLine>, k: Key, quantity: int, k': Key)
    ensures Count(IncrementMatching(c, k, quantity), k') == Count(c, k')
    ensures Quantity(IncrementMatching(c, k, quantity), k') ==
      Quantity(c, k') + (if k' == k then Count(c, k) * quantity else 0)
  {
    if c != [] {
      var r := IncrementMatching(c, k, quantity);
      assert r[1..] == IncrementMatching(c[1..], k, quantity);
      IncrementCounts(c[1..], k, quantity, k');
      assert KeyOf(r[0]) == KeyOf(c[0]);
      var n := Count(c[1..], k);
      if KeyOf(c[0]) == k {
        assert r[0].quantity == c[0].quantity + quantity;
        assert Count(c, k) == 1 + n;
        assert (1 + n) * quantity == quantity + n * quantity;
      } else {
        assert r[0] == c[0];
      }
    }
  }

  // ---------------------------------------------------------------------
  // addToCart

  /**
   * Starting from at most one line with the key, `addToCart` leaves
   * exactly one, whose quantity has grown by `quantity`; every other key
   * keeps its lines and its total.
   */
  lemma {:induction false} AddToCartCounts(c: seq<CartLine>, productId: string, size: string, quantity: int, isGift: bool, k': Key)
    requires Count(c, Key(productId, size, isGift)) <= 1
    ensures var k, r := Key(productId, size, isGift), AddToCart(c, productId, size, quantity, isGift);
      && Count(r, k) == 1
      && Quantity(r, k) == Quantity(c, k) + quantity
      && (k' != k ==> Count(r, k') == Count(c, k') && Quantity(r, k') == Quantity(c, k'))
  {
    var k := Key(productId, size, isGift);
    var line := CartLine(productId, quantity, size, Some(isGift));
    CountZeroIffAbsent(c, k);
    if HasKey(c, k) {
      assert Count(c, k) == 1;
      IncrementCounts(c, k, quantity, k);
      IncrementCounts(c, k, quantity, k');
    } else {
      CountAppend(c, [line], k);
      CountAppend(c, [line], k');
      assert [line][1..] == [];
    }
  }

  /** `addToCart` never introduces a duplicate key. */
  lemma {:induction false} AddToCartKeepsUniqueKeys(c: seq<CartLine>, productId: string, size: string, quantity: int, isGift: bool)
    requires UniqueKeys(c)
    ensures UniqueKeys(AddToCart(c, productId, size, quantity, isGift))
  {
    var r := AddToCart(c, productId, size, quantity, isGift);
    var k := Key(productId, size, isGift);
    if HasKey(c, k) {
      assert forall i :: 0 <= i < |c| ==> KeyOf(r[i]) == KeyOf(c[i]);
    } else {
      forall i, j | 0 <= i < j < |r| ensures KeyOf(r[i]) != KeyOf(r[j]) {
        if j == |c| {
          assert KeyOf(r[j]) == k;
        }
      }
    }
  }

  /** The merge path keeps every quantity positive when the added quantity is. */
  lemma {:induction false} AddToCartKeepsPositive(c: seq<CartLine>, productId: string, size: string, quantity: int, isGift: bool)
    requires AllPositive(c) && quantity >= 1
    ensures AllPositive(AddToCart(c, productId, size, quantity, isGift))
  {
  }

  function Sum(qs: seq<int>): int {
    if qs == [] then 0 else qs[0] + Sum(qs[1..])
  }

  /** Adding each quantity of `qs`, in order, under one key. */
  ghost function AddAll(c: seq<CartLine>, productId: string, size: string, isGift: bool, qs: seq<int>): seq<CartLine>
    decreases |qs|
  {
    if qs == [] then c else AddAll(AddToCart(c, productId, size, qs[0], isGift), productId, size, isGift, qs[1..])
  }

  /**
   * Any number of `addToCart` calls with one key, starting from a cart
   * with no line of that key, leave exactly one line of that key, whose
   * quantity is the sum of the requested quantities; the other keys are
   * as they were.
   */
  lemma {:induction false} AddRepeated(c: seq<CartLine>, productId: string, size: string, isGift: bool, qs: seq<int>, k': Key)
    requires Count(c, Key(productId, size, isGift)) <= 1
    ensures var k, r := Key(productId, size, isGift), AddAll(c, productId, size, isGift, qs);
      && Count(r, k) == (if qs == [] then Count(c, k) else 1)
      && Quantity(r, k) == Quantity(c, k) + Sum(qs)
      && (k' != k ==> Count(r, k') == Count(c, k') && Quantity(r, k') == Quantity(c, k'))
    decreases |qs|
  {
    if qs != [] {
      var c1 := AddToCart(c, productId, size, qs[0], isGift);
      AddToCartCounts(c, productId, size, qs[0], isGift, k');
      AddRepeated(c1, productId, size, isGift, qs[1..], k');
    }
  }

  /** The form the storefront's promise takes: from an empty key, one line holding the sum. */
  lemma {:induction false} AddRepeatedFromAbsent(c: seq<CartLine>, productId: string, size: string, isGift: bool, qs: seq<int>)
    requires !HasKey(c, Key(productId, size, isGift)) && qs != []
    ensures var k, r := Key(productId, size, isGift), AddAll(c, productId, size, isGift, qs);
      Count(r, k) == 1 && Quantity(r, k) == Sum(qs)
  {
    CountZeroIffAbsent(c, Key(productId, size, isGift));
    AddRepeated(c, productId, size, isGift, qs, Key(productId, size, isGift));
  }

  // ---------------------------------------------------------------------
  // updateCartItem and updateCartItemSize

  /** `updateCartItem` keeps every key, so it keeps the cart free of duplicate keys. */
  lemma {:induction false} UpdateCartItemKeepsKeys(c: seq<CartLine>, productId: string, size: string, quantity: int, isGift: bool)
    ensures var r := UpdateCartItem(c, productId, size, quantity, isGift);
      && (forall i :: 0 <= i < |c| ==> KeyOf(r[i]) == KeyOf(c[i]))
      && (UniqueKeys(c) ==> UniqueKeys(r))
  {
    var r := UpdateCartItem(c, productId, size, quantity, isGift);
    assert forall i :: 0 <= i < |c| ==> KeyOf(r[i]) == KeyOf(c[i]);
  }

  /**
   * After `updateCartItem` every key has as many lines as before; the
   * updated key's total is its line count times the new quantity.
   */
  lemma {:induction false} UpdateCartItemTotals(c: seq<CartLine>, productId: string, size: string, quantity: int, isGift: bool, k': Key)
    ensures var r := UpdateCartItem(c, productId, size, quantity, isGift);
      && Count(r, k') == Count(c, k')
      && Quantity(r, k') == (if k' == Key(productId, size, isGift) then Count(c, k') * quantity else Quantity(c, k'))
  {
    var r := UpdateCartItem(c, productId, size, quantity, isGift);
    if c != [] {
      var rest := UpdateCartItem(c[1..], productId, size, quantity, isGift);
      assert r[1..] == rest;
      UpdateCartItemTotals(c[1..], productId, size, quantity, isGift, k');
      assert KeyOf(r[0]) == KeyOf(c[0]);
      if k' == Key(productId, size, isGift) {
        var n := Count(c[1..], k');
        if KeyOf(c[0]) == k' {
          assert Count(c, k') == 1 + n;
          assert Quantity(r, k') == quantity + n * quantity;
          assert (1 + n) * quantity == quantity + n * quantity;
        }
      }
    }
  }

  /** `updateCartItem` accepts any quantity: a zero or negative one lands in the cart as given. */
  lemma {:induction false} UpdateCartItemAllowsNonPositive(c: seq<CartLine>, i: nat, quantity: int)
    requires i < |c| && quantity <= 0
    ensures var r := UpdateCartItem(c, c[i].productId, c[i].size, quantity, GiftFlag(c[i].isGift));
      r[i].quantity == quantity && !AllPositive(r)
  {
  }

  /**
   * Renaming a size, in a cart without duplicate keys, leaves a cart
   * without duplicate keys exactly when the old key or the new key had no
   * line: `updateCartItemSize` does not merge a clash.
   */
  lemma {:induction false} UpdateCartItemSizeUniqueIff(c: seq<CartLine>, productId: string, oldSize: string, newSize: string, isGift: bool)
    requires UniqueKeys(c) && oldSize != newSize
    ensures UniqueKeys(UpdateCartItemSize(c, productId, oldSize, newSize, isGift)) <==>
      !(HasKey(c, Key(productId, oldSize, isGift)) && HasKey(c, Key(productId, newSize, isGift)))
  {
    var ko, kn := Key(productId, oldSize, isGift), Key(productId, newSize, isGift);
    if HasKey(c, ko) && HasKey(c, kn) {
      RenameClash(c, productId, oldSize, newSize, isGift);
    } else {
      RenameNoClash(c, productId, oldSize, newSize, isGift);
    }
  }

  /** Each renamed line carries the new key; every other line keeps its key. */
  lemma RenamedKeys(c: seq<CartLine>, productId: string, oldSize: string, newSize: string, isGift: bool)
    ensures var r := UpdateCartItemSize(c, productId, oldSize, newSize, isGift);
      forall i :: 0 <= i < |c| ==>
        KeyOf(r[i]) == (if KeyOf(c[i]) == Key(productId, oldSize, isGift) then Key(productId, newSize, isGift) else KeyOf(c[i]))
  {
  }

  /** When both keys have a line, the renamed line collides with the one already under the new key. */
  lemma RenameClash(c: seq<CartLine>, productId: string, oldSize: string, newSize: string, isGift: bool)
    requires oldSize != newSize
    requires HasKey(c, Key(productId, oldSize, isGift)) && HasKey(c, Key(productId, newSize, isGift))
    ensures !UniqueKeys(UpdateCartItemSize(c, productId, oldSize, newSize, isGift))
  {
    var r := UpdateCartItemSize(c, productId, oldSize, newSize, isGift);
    var ko, kn := Key(productId, oldSize, isGift), Key(productId, newSize, isGift);
    RenamedKeys(c, productId, oldSize, newSize, isGift);
    var i :| 0 <= i < |c| && KeyOf(c[i]) == ko;
    var j :| 0 <= j < |c| && KeyOf(c[j]) == kn;
    assert KeyOf(r[i]) == kn && KeyOf(r[j]) == kn;
    if i < j {
      assert !(KeyOf(r[i]) != KeyOf(r[j]));
    } else {
      assert !(KeyOf(r[j]) != KeyOf(r[i]));
    }
  }

  /** When one of the two keys has no line, the renaming creates no collision. */
  lemma RenameNoClash(c: seq<CartLine>, productId: string, oldSize: string, newSize: string, isGift: bool)
    requires UniqueKeys(c)
    requires !(HasKey(c, Key(productId, oldSize, isGift)) && HasKey(c, Key(productId, newSize, isGift)))
    ensures UniqueKeys(UpdateCartItemSize(c, productId, oldSize, newSize, isGift))
  {
    var r := UpdateCartItemSize(c, productId, oldSize, newSize, isGift);
    var ko, kn := Key(productId, oldSize, isGift), Key(productId, newSize, isGift);
    RenamedKeys(c, productId, oldSize, newSize, isGift);
    forall i, j | 0 <= i < j < |r| ensures KeyOf(r[i]) != KeyOf(r[j]) {
      assert KeyOf(c[i]) != KeyOf(c[j]);
      if KeyOf(c[i]) == ko && KeyOf(c[j]) != ko {
        assert KeyOf(c[j]) != kn;
      } else if KeyOf(c[i]) != ko && KeyOf(c[j]) == ko {
        assert KeyOf(c[i]) != kn;
      }
    }
  }

  /** A concrete clash: renaming `S` to `M` when both lines exist yields two lines with one key. */
  lemma {:induction false} UpdateCartItemSizeCanDuplicate()
    ensures var a, b := CartLine("P1", 1, "S", Some(false)), CartLine("P1", 2, "M", None);
      var r := UpdateCartItemSize([a, b], "P1", "S", "M", false);
      UniqueKeys([a, b]) && |r| == 2 && KeyOf(r[0]) == KeyOf(r[1])
  {
  }

  // ---------------------------------------------------------------------
  // removeFromCart

  /** Filtering commutes with concatenation: the kept lines stay in their original order. */
  lemma {:induction false} RemoveDistributes(a: seq<CartLine>, b: seq<CartLine>, productId: string, size: string, isGift: bool)
    ensures RemoveFromCart(a + b, productId, size, isGift) ==
      RemoveFromCart(a, productId, size, isGift) + RemoveFromCart(b, productId, size, isGift)
  {
    if a == [] {
      assert a + b == b;
    } else {
      var head, tail := a[0], a[1..];
      ConsSplit(a, b, []);
      ConsSplit(a, [], []);
      assert a == [head] + tail;
      RemoveDistributes(tail, b, productId, size, isGift);
      if KeyOf(head) == Key(productId, size, isGift) {
        RemoveDropsHead(head, tail + b, productId, size, isGift);
        RemoveDropsHead(head, tail, productId, size, isGift);
      } else {
        RemoveKeepsHead(head, tail + b, productId, size, isGift);
        RemoveKeepsHead(head, tail, productId, size, isGift);
        AppendAssoc([head], RemoveFromCart(tail, productId, size, isGift), RemoveFromCart(b, productId, size, isGift));
      }
    }
  }

  /** A first line with the key is dropped. */
  lemma RemoveDropsHead(head: CartLine, rest: seq<CartLine>, productId: string, size: string, isGift: bool)
    requires KeyOf(head) == Key(productId, size, isGift)
    ensures RemoveFromCart([head] + rest, productId, size, isGift) == RemoveFromCart(rest, productId, size, isGift)
  {
    var c := [head] + rest;
    assert c[0] == head && c[1..] == rest;
  }

  /** In a cart without duplicate keys, no line before or after line `i` shares its key. */
  lemma UniqueSplit(c: seq<CartLine>, i: nat)
    requires UniqueKeys(c) && i < |c|
    ensures !HasKey(c[..i], KeyOf(c[i])) && !HasKey(c[i + 1..], KeyOf(c[i]))
  {
    var k, pre, post := KeyOf(c[i]), c[..i], c[i + 1..];
    forall j | 0 <= j < |pre| ensures KeyOf(pre[j]) != k {
      assert pre[j] == c[j];
    }
    forall j | 0 <= j < |post| ensures KeyOf(post[j]) != k {
      assert post[j] == c[i + 1 + j];
    }
  }

  /** Removing a key that only the middle line carries deletes exactly that line. */
  lemma {:induction false} RemoveMiddle(pre: seq<CartLine>, x: CartLine, post: seq<CartLine>, productId: string, size: string, isGift: bool)
    requires KeyOf(x) == Key(productId, size, isGift)
    requires !HasKey(pre, Key(productId, size, isGift)) && !HasKey(post, Key(productId, size, isGift))
    ensures RemoveFromCart(pre + [x] + post, productId, size, isGift) == pre + post
  {
    if pre == [] {
      var c := [x] + post;
      assert c[0] == x && c[1..] == post;
    } else {
      var tail := pre[1..];
      assert !HasKey(tail, Key(productId, size, isGift)) by {
        forall j | 0 <= j < |tail| ensures KeyOf(tail[j]) != Key(productId, size, isGift) {
          assert tail[j] == pre[j + 1];
        }
      }
      var rest := tail + [x] + post;
      RemoveMiddle(tail, x, post, productId, size, isGift);
      ConsSplit(pre, [x], post);
      RemoveKeepsHead(pre[0], rest, productId, size, isGift);
      assert RemoveFromCart(pre + [x] + post, productId, size, isGift) == [pre[0]] + (tail + post);
      ConsSplit(pre, post, []);
      assert [pre[0]] + (tail + post) == pre + post;
    }
  }

  /** A first line with another key is kept in front of the filtered rest. */
  lemma RemoveKeepsHead(head: CartLine, rest: seq<CartLine>, productId: string, size: string, isGift: bool)
    requires KeyOf(head) != Key(productId, size, isGift)
    ensures RemoveFromCart([head] + rest, productId, size, isGift) == [head] + RemoveFromCart(rest, productId, size, isGift)
  {
    var c := [head] + rest;
    assert c[0] == head && c[1..] == rest;
  }

  /** In a cart without duplicate keys, removing a line's key deletes that one line in place. */
  lemma {:induction false} RemoveDeletesOneLine(c: seq<CartLine>, i: nat)
    requires UniqueKeys(c) && i < |c|
    ensures RemoveFromCart(c, c[i].productId, c[i].size, GiftFlag(c[i].isGift)) == c[..i] + c[i + 1..]
  {
    UniqueSplit(c, i);
    assert c == c[..i] + [c[i]] + c[i + 1..];
    RemoveMiddle(c[..i], c[i], c[i + 1..], c[i].productId, c[i].size, GiftFlag(c[i].isGift));
  }

  /** `removeFromCart` leaves no line of the key and leaves every other key untouched. */
  lemma {:induction false} RemoveCounts(c: seq<CartLine>, productId: string, size: string, isGift: bool, k': Key)
    ensures var k, r := Key(productId, size, isGift), RemoveFromCart(c, productId, size, isGift);
      && Count(r, k) == 0
      && (k' != k ==> Count(r, k') == Count(c, k') && Quantity(r, k') == Quantity(c, k'))
  {
    var k := Key(productId, size, isGift);
    var r := RemoveFromCart(c, productId, size, isGift);
    CountZeroIffAbsent(r, k);
    if c != [] {
      RemoveCounts(c[1..], productId, size, isGift, k');
      if KeyOf(c[0]) != k {
        assert r == [c[0]] + RemoveFromCart(c[1..], productId, size, isGift);
        CountAppend([c[0]], RemoveFromCart(c[1..], productId, size, isGift), k');
        assert [c[0]][1..] == [];
      }
    }
  }

  /** `removeFromCart` never introduces a duplicate key. */
  lemma {:induction false} RemoveKeepsUniqueKeys(c: seq<CartLine>, productId: string, size: string, isGift: bool)
    requires UniqueKeys(c)
    ensures UniqueKeys(RemoveFromCart(c, productId, size, isGift))
  {
    if c != [] {
      var head, tail := c[0], c[1..];
      UniqueTail(c);
      RemoveKeepsUniqueKeys(tail, productId, size, isGift);
      assert c == [head] + tail;
      if KeyOf(head) != Key(productId, size, isGift) {
        RemoveKeepsHead(head, tail, productId, size, isGift);
        RemoveKeepsAbsent(tail, productId, size, isGift, KeyOf(head));
        UniqueCons(head, RemoveFromCart(tail, productId, size, isGift));
      } else {
        RemoveDropsHead(head, tail, productId, size, isGift);
      }
    }
  }

  /** The tail of a cart without duplicate keys has none either, and lacks the head's key. */
  lemma UniqueTail(c: seq<CartLine>)
    requires UniqueKeys(c) && c != []
    ensures UniqueKeys(c[1..]) && !HasKey(c[1..], KeyOf(c[0]))
  {
    var tail := c[1..];
    forall i, j | 0 <= i < j < |tail| ensures KeyOf(tail[i]) != KeyOf(tail[j]) {
      assert tail[i] == c[i + 1] && tail[j] == c[j + 1];
    }
    forall j | 0 <= j < |tail| ensures KeyOf(tail[j]) != KeyOf(c[0]) {
      assert tail[j] == c[j + 1];
    }
  }

  /** A line whose key the rest lacks can go in front without creating a duplicate. */
  lemma UniqueCons(head: CartLine, rest: seq<CartLine>)
    requires UniqueKeys(rest) && !HasKey(rest, KeyOf(head))
    ensures UniqueKeys([head] + rest)
  {
    var r := [head] + rest;
    forall i, j | 0 <= i < j < |r| ensures KeyOf(r[i]) != KeyOf(r[j]) {
      assert r[j] == rest[j - 1];
      if i > 0 {
        assert r[i] == rest[i - 1];
      }
    }
  }

  /** A key absent from the cart is absent after a removal. */
  lemma RemoveKeepsAbsent(c: seq<CartLine>, productId: string, size: string, isGift: bool, k': Key)
    requires !HasKey(c, k')
    ensures !HasKey(RemoveFromCart(c, productId, size, isGift), k')
  {
    var r := RemoveFromCart(c, productId, size, isGift);
    forall i | 0 <= i < |r| ensures KeyOf(r[i]) != k' {
      var m :| 0 <= m < |c| && c[m] == r[i];
    }
  }

  /**
   * A removal followed by an add of the same key leaves no trace of the
   * removed line: the key ends up with one line holding just the new
   * quantity, at the end of the cart.
   */
  lemma {:induction false} RemoveThenAdd(c: seq<CartLine>, productId: string, size: string, quantity: int, isGift: bool)
    ensures var k, removed := Key(productId, size, isGift), RemoveFromCart(c, productId, size, isGift);
      var r := AddToCart(removed, productId, size, quantity, isGift);
      && r == removed + [CartLine(productId, quantity, size, Some(isGift))]
      && Count(r, k) == 1 && Quantity(r, k) == quantity
  {
    var k := Key(productId, size, isGift);
    var removed := RemoveFromCart(c, productId, size, isGift);
    RemoveCounts(c, productId, size, isGift, k);
    CountZeroIffAbsent(removed, k);
    AddToCartCounts(removed, productId, size, quantity, isGift, k);
  }
}
