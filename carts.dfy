/** The two edits the cart handlers make to an account's cart sequence:
    the guarded push of `/cart/add` (server.js:139) and the filter of
    `/cart/remove` (server.js:152). */
module Carts {
  import opened Records

  predicate NoDuplicates(cart: seq<ProductId>) {
    forall i, j :: 0 <= i < j < |cart| ==> cart[i] != cart[j]
  }

  /** `if (!cart.includes(pid)) cart.push(pid)`: the old cart stays a prefix,
      and at most the one new id is added, at the end. */
  function AddOnce(cart: seq<ProductId>, pid: ProductId): (r: seq<ProductId>)
    ensures pid in r
    ensures forall x :: x in r <==> x in cart || x == pid
    ensures |cart| <= |r| <= |cart| + 1 && r[..|cart|] == cart
    ensures NoDuplicates(cart) ==> NoDuplicates(r)
  {
    if pid in cart then cart else cart + [pid]
  }

  /** `cart.filter(id => id !== pid)`. */
  function Without(cart: seq<ProductId>, pid: ProductId): (r: seq<ProductId>)
    ensures forall x :: x in r <==> x in cart && x != pid
    ensures |r| <= |cart|
  {
    if cart == [] then []
    else (if cart[0] == pid then [] else [cart[0]]) + Without(cart[1..], pid)
  }

  /** Adding an id that is already there changes nothing, so a repeated add is a no-op. */
  lemma AddOnceIdempotent(cart: seq<ProductId>, pid: ProductId)
    ensures AddOnce(AddOnce(cart, pid), pid) == AddOnce(cart, pid)
  {
  }

  /** Filtering distributes over concatenation, which is how it keeps the
      relative order of the ids it keeps. */
  lemma {:induction false} WithoutAppend(a: seq<ProductId>, b: seq<ProductId>, pid: ProductId)
    ensures Without(a + b, pid) == Without(a, pid) + Without(b, pid)
  {
    if a == [] {
      assert a + b == b;
    } else {
      assert (a + b)[0] == a[0] && (a + b)[1..] == a[1..] + b;
      WithoutAppend(a[1..], b, pid);
    }
  }

  /** Removing an id that is not in the cart leaves the cart unchanged. */
  lemma {:induction false} WithoutAbsent(cart: seq<ProductId>, pid: ProductId)
    requires pid !in cart
    ensures Without(cart, pid) == cart
  {
    if cart != [] {
      WithoutAbsent(cart[1..], pid);
    }
  }

  /** Removing twice is removing once. */
  lemma WithoutIdempotent(cart: seq<ProductId>, pid: ProductId)
    ensures Without(Without(cart, pid), pid) == Without(cart, pid)
  {
    WithoutAbsent(Without(cart, pid), pid);
  }

  /** Filtering keeps a cart free of duplicates. */
  lemma {:induction false} WithoutNoDuplicates(cart: seq<ProductId>, pid: ProductId)
    requires NoDuplicates(cart)
    ensures NoDuplicates(Without(cart, pid))
  {
    if cart != [] {
      WithoutNoDuplicates(cart[1..], pid);
      assert cart[0] !in cart[1..] by {
        forall j | 0 <= j < |cart[1..]| ensures cart[1..][j] != cart[0] {
          assert cart[1..][j] == cart[j + 1];
        }
      }
    }
  }

  /** In a duplicate-free cart, removing an id that sits at position i deletes
      exactly that position and keeps everything else in order. */
  lemma WithoutAt(cart: seq<ProductId>, i: nat)
    requires NoDuplicates(cart) && i < |cart|
    ensures Without(cart, cart[i]) == cart[..i] + cart[i + 1..]
  {
    OnlyAt(cart, i);
    assert cart == cart[..i] + [cart[i]] + cart[i + 1..];
    WithoutSingle(cart[..i], cart[i], cart[i + 1..]);
  }

  /** In a duplicate-free cart, the id at position i occurs nowhere else. */
  lemma OnlyAt(cart: seq<ProductId>, i: nat)
    requires NoDuplicates(cart) && i < |cart|
    ensures cart[i] !in cart[..i] && cart[i] !in cart[i + 1..]
  {
    var before, after := cart[..i], cart[i + 1..];
    forall j | 0 <= j < |before| ensures before[j] != cart[i] {
      assert before[j] == cart[j];
    }
    forall j | 0 <= j < |after| ensures after[j] != cart[i] {
      assert after[j] == cart[i + 1 + j];
    }
  }

  /** Filtering out the one occurrence of an id closes the gap it leaves. */
  lemma WithoutSingle(before: seq<ProductId>, pid: ProductId, after: seq<ProductId>)
    requires pid !in before && pid !in after
    ensures Without(before + [pid] + after, pid) == before + after
  {
    WithoutAppend(before + [pid], after, pid);
    WithoutAppend(before, [pid], pid);
    assert Without([pid], pid) == [] by {
      assert [pid][1..] == [];
    }
    WithoutAbsent(before, pid);
    WithoutAbsent(after, pid);
    calc {
      Without(before + [pid] + after, pid);
      Without(before + [pid], pid) + Without(after, pid);
      Without(before, pid) + Without([pid], pid) + Without(after, pid);
      before + [] + after;
    }
    assert before + [] == before;
  }

  /** Removing an id after adding it gives the same cart as removing it
      outright; when the id was not there, it gives back the original cart. */
  lemma AddThenRemove(cart: seq<ProductId>, pid: ProductId)
    ensures Without(AddOnce(cart, pid), pid) == Without(cart, pid)
    ensures pid !in cart ==> Without(AddOnce(cart, pid), pid) == cart
  {
    if pid !in cart {
      WithoutAppend(cart, [pid], pid);
      WithoutAbsent(cart, pid);
    }
  }
}
