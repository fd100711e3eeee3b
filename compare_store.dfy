/** The browser-side comparison list: at most three products, no product
    twice, in the order they were added. */
module ClientCompare {
  import opened Common
  import opened Store

  const MaxCompared := 3

  predicate IdsUnique(ps: seq<Product>) {
    forall i, j :: 0 <= i < j < |ps| ==> ps[i].id != ps[j].id
  }

  predicate HasId(ps: seq<Product>, id: int) {
    exists i :: 0 <= i < |ps| && ps[i].id == id
  }

  /** `products.filter((p) => p.id !== id)`. */
  function WithoutId(ps: seq<Product>, id: int): (r: seq<Product>)
    ensures |r| <= |ps|
    ensures forall p :: p in r <==> p in ps && p.id != id
  {
    if ps == [] then []
    else if ps[0].id != id then [ps[0]] + WithoutId(ps[1..], id)
    else WithoutId(ps[1..], id)
  }

  /** Filtering distributes over concatenation, so the kept entries stay in
      their relative order. */
  lemma {:induction false} WithoutIdConcat(a: seq<Product>, b: seq<Product>, id: int)
    ensures WithoutId(a + b, id) == WithoutId(a, id) + WithoutId(b, id)
  {
    if a == [] {
      assert a + b == b;
    } else {
      assert (a + b)[0] == a[0];
      assert (a + b)[1..] == a[1..] + b;
      WithoutIdConcat(a[1..], b, id);
    }
  }

  /** Removing an id that is not listed changes nothing. */
  lemma {:induction false} WithoutAbsentId(ps: seq<Product>, id: int)
    requires !HasId(ps, id)
    ensures WithoutId(ps, id) == ps
  {
    if ps != [] {
      assert !HasId(ps[1..], id) by {
        forall i | 0 <= i < |ps[1..]| ensures ps[1..][i].id != id {
          assert ps[1..][i] == ps[i + 1];
        }
      }
      WithoutAbsentId(ps[1..], id);
    }
  }

  lemma {:induction false} WithoutIdUnique(ps: seq<Product>, id: int)
    requires IdsUnique(ps)
    ensures IdsUnique(WithoutId(ps, id))
  {
    if ps != [] {
      TailUnique(ps);
      WithoutIdUnique(ps[1..], id);
      var rest := WithoutId(ps[1..], id);
      if ps[0].id != id {
        ConsUnique(ps[0], rest);
      }
    }
  }

  lemma TailUnique(ps: seq<Product>)
    requires IdsUnique(ps) && ps != []
    ensures IdsUnique(ps[1..])
    ensures forall p :: p in ps[1..] ==> p.id != ps[0].id
  {
    var t := ps[1..];
    assert forall i :: 0 <= i < |t| ==> t[i] == ps[i + 1];
  }

  lemma ConsUnique(x: Product, rest: seq<Product>)
    requires IdsUnique(rest) && forall p :: p in rest ==> p.id != x.id
    ensures IdsUnique([x] + rest)
  {
    var r := [x] + rest;
    assert forall i :: 0 < i < |r| ==> r[i] == rest[i - 1] && r[i] in rest;
  }

  class CompareStore {
    var products: seq<Product>

    ghost predicate Valid()
      reads this
    {
      |products| <= MaxCompared && IdsUnique(products)
    }

    /** A first visit: nothing saved under 'compare-storage'. */
    constructor ()
      ensures Valid() && products == []
    {
      products := [];
    }

    /** A reload: `persist` rehydrates the saved list, which these methods
        wrote and so keeps the invariant. */
    constructor Restore(saved: seq<Product>)
      requires |saved| <= MaxCompared && IdsUnique(saved)
      ensures Valid() && products == saved
    {
      products := saved;
    }

    /** `addToCompare`: refused when three products are listed or the product
        already is; otherwise appended at the end. */
    method AddToCompare(product: Product) returns (r: Result<(), Error>)
      requires Valid()
      modifies this
      ensures Valid()
      ensures |old(products)| >= MaxCompared ==> r == Err(TooManyIds) && products == old(products)
      ensures |old(products)| < MaxCompared && HasId(old(products), product.id) ==>
                r == Err(AlreadyCompared) && products == old(products)
      ensures |old(products)| < MaxCompared && !HasId(old(products), product.id) ==>
                r == Ok(()) && products == old(products) + [product]
    {
      if |products| >= MaxCompared {
        return Err(TooManyIds);
      }
      var i := 0;
      while i < |products|
        invariant 0 <= i <= |products|
        invariant forall k :: 0 <= k < i ==> products[k].id != product.id
      {
        if products[i].id == product.id {
          return Err(AlreadyCompared);
        }
        i := i + 1;
      }
      products := products + [product];
      r := Ok(());
    }

    /** `removeFromCompare`: every entry with that id goes, the rest stay in
        order. */
    method RemoveFromCompare(productId: int)
      requires Valid()
      modifies this
      ensures Valid()
      ensures products == WithoutId(old(products), productId)
      ensures !HasId(products, productId)
    {
      WithoutIdUnique(products, productId);
      products := WithoutId(products, productId);
      forall i | 0 <= i < |products| ensures products[i].id != productId {
        assert products[i] in products;
      }
    }

    method ClearCompare()
      modifies this
      ensures Valid() && products == []
    {
      products := [];
    }
  }
}
