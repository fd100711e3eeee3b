/** The browser-side cart store: the `items` last fetched from the server,
    a `loading` flag, and the totals it derives from the items. */
module ClientCart {
  import opened Common
  import opened Store
  import opened Cart

  class CartStore {
    var items: seq<CartEntry>
    var loading: bool

    /** A first visit: nothing saved under 'cart-storage'. */
    constructor ()
      ensures items == [] && !loading
    {
      items := [];
      loading := false;
    }

    /** A reload: `persist` rehydrates the whole saved state, a `loading`
        flag saved in the middle of a fetch included. */
    constructor Restore(savedItems: seq<CartEntry>, savedLoading: bool)
      ensures items == savedItems && loading == savedLoading
    {
      items := savedItems;
      loading := savedLoading;
    }

    /** `fetchCart`, with the server's answer as a parameter: success replaces
        the items, failure keeps them; either way loading ends false. */
    method FetchCart(response: Result<seq<CartEntry>, ()>)
      modifies this
      ensures !loading
      ensures response.Ok? ==> items == response.value
      ensures response.Err? ==> items == old(items)
    {
      loading := true;
      if response.Ok? {
        items, loading := response.value, false;
      } else {
        loading := false;
      }
    }

    /** `clearCart`: the items are emptied only after the server delete
        succeeded; a failure is passed on and the items stay. */
    method ClearCart(server: Result<(), ()>) returns (r: Result<(), ()>)
      modifies this
      ensures r == server
      ensures server.Ok? ==> items == []
      ensures server.Err? ==> items == old(items)
      ensures loading == old(loading)
    {
      if server.Err? {
        return server;
      }
      items := [];
      r := server;
    }

    /** `getTotal`: Σ (salePrice || price) × quantity over the items. */
    function GetTotal(): (total: int)
      reads this
      ensures items == [] ==> total == 0
      ensures total == Subtotal(items)
    {
      Subtotal(items)
    }

    /** `getItemCount`: Σ quantity over the items. */
    function GetItemCount(): (count: int)
      reads this
      ensures items == [] ==> count == 0
      ensures count == ItemCount(items)
    {
      ItemCount(items)
    }
  }

  /** After fetching a user's cart, the store shows the same total and item
      count as the server computed for that cart. */
  lemma StoreAgreesWithServer(store: CartStore, shop: Shop, userId: int)
    requires shop.Valid()
    requires store.items == GetCart(shop, userId).items
    ensures store.GetTotal() == GetCart(shop, userId).subtotal
    ensures store.GetItemCount() == GetCart(shop, userId).itemCount
  {
  }

  /** The store's totals do not depend on the order the items arrive in. */
  lemma TotalOrderIndependent(a: CartStore, b: CartStore)
    requires b.items == Reverse(a.items)
    ensures a.GetTotal() == b.GetTotal() && a.GetItemCount() == b.GetItemCount()
  {
    SubtotalReverse(a.items);
  }
}
