/** `OrdersViewController`: the list of the current user's orders, what the
    table shows of it, and the delete confirmation. */
module OrdersViewController {
  import opened Common
  import opened Sorting
  import opened CoreDataManager
  import opened UserManager

  /** The sort key of the list: the due date, or `Date.distantFuture` when
      the order has none. */
  function ListKey(o: Order): Date
  {
    match o.dueDate
    case Some(d) => d
    case None => DistantFuture
  }

  predicate ListKeyLe(a: Order, b: Order)
  {
    ListKey(a) <= ListKey(b)
  }

  lemma ListKeyLeIsTotalPreorder()
    ensures TotalPreorder(ListKeyLe)
  {
  }

  /** `fetchOrders`: empty without a current user; otherwise the user's
      orders from the store, re-sorted by the list key. */
  function FetchOrders(st: Store, s: Session, fetchOk: bool): (orders: seq<Order>)
    ensures s.currentUser.None? ==> orders == []
    ensures s.currentUser.Some? ==>
              multiset(orders) == multiset(FetchOrdersForUser(st, s.currentUser.value, fetchOk))
    ensures forall o :: o in orders <==>
              s.currentUser.Some? && fetchOk && o in st.orders && o.owner == s.currentUser.value.id
    ensures SortedBy(orders, ListKeyLe)
  {
    match s.currentUser
    case None => []
    case Some(user) =>
      ListKeyLeIsTotalPreorder();
      var fetched := FetchOrdersForUser(st, user, fetchOk);
      var orders := SortBy(fetched, ListKeyLe);
      PermutationKeepsMembers(orders, fetched);
      orders
  }

  /** In a list sorted by the list key, nothing dated before
      `Date.distantFuture` follows an order without a due date: missing dates
      come last. */
  lemma {:induction false} MissingDueDatesLast(orders: seq<Order>, i: nat, j: nat)
    requires SortedBy(orders, ListKeyLe)
    requires i < j < |orders|
    requires orders[i].dueDate.None?
    ensures orders[j].dueDate.None? || orders[j].dueDate.value >= DistantFuture
  {
    assert ListKeyLe(orders[i], orders[j]);
  }

  /** What the table shows: the number of rows, the count in the "Total
      Orders" header, and whether the empty-state label is hidden. */
  datatype ListDisplay = ListDisplay(rows: nat, headerTotal: nat, emptyLabelHidden: bool)

  function Display(orders: seq<Order>): (v: ListDisplay)
    ensures v.rows == v.headerTotal == |orders|
    ensures v.emptyLabelHidden <==> v.rows > 0
  {
    ListDisplay(|orders|, |orders|, orders != [])
  }

  /** What the table shows after a fetch: nothing, with the empty-state
      label visible, without a current user or when the fetch fails;
      otherwise one row per order the user owns, and the label is hidden iff
      there is one. */
  lemma DisplayOfFetch(st: Store, s: Session, fetchOk: bool)
    ensures s.currentUser.None? || !fetchOk ==> Display(FetchOrders(st, s, fetchOk)) == ListDisplay(0, 0, false)
    ensures s.currentUser.Some? && fetchOk ==>
              var v := Display(FetchOrders(st, s, fetchOk));
              && v.rows == |OwnedBy(st.orders, s.currentUser.value.id)|
              && (v.emptyLabelHidden <==> exists o :: o in st.orders && o.owner == s.currentUser.value.id)
  {
    var orders := FetchOrders(st, s, fetchOk);
    if s.currentUser.Some? {
      var fetched := FetchOrdersForUser(st, s.currentUser.value, fetchOk);
      assert |orders| == |multiset(orders)| == |multiset(fetched)|;
      if !fetchOk {
        assert orders == [];
      } else if orders != [] {
        assert orders[0] in orders;
      }
    }
  }

  datatype AlertChoice = Cancel | Delete

  /** The delete confirmation. Cancel touches nothing. Delete removes the
      order from the store; the list is fetched again only when the save
      succeeded, and is left as it was otherwise. */
  function DeleteOrderAlert(st: Store, s: Session, orders: seq<Order>, order: Order, choice: AlertChoice,
                            saved: bool, fetchOk: bool): (r: (Store, seq<Order>))
    ensures choice == Cancel ==> r == (st, orders)
    ensures choice == Delete ==> r.0 == DeleteOrder(st, order.id, saved).0
    ensures choice == Delete && !saved ==> r.1 == orders
    ensures choice == Delete && saved ==>
              forall o :: o in r.1 <==>
                s.currentUser.Some? && fetchOk && o in st.orders && o.id != order.id && o.owner == s.currentUser.value.id
  {
    match choice
    case Cancel => (st, orders)
    case Delete =>
      var (st', ok) := DeleteOrder(st, order.id, saved);
      (st', if ok then FetchOrders(st', s, fetchOk) else orders)
  }

  /** `didSaveOrder`: the list is fetched again. */
  function DidSaveOrder(st: Store, s: Session, fetchOk: bool): (orders: seq<Order>)
    ensures forall o :: o in orders <==>
              s.currentUser.Some? && fetchOk && o in st.orders && o.owner == s.currentUser.value.id
    ensures SortedBy(orders, ListKeyLe)
  {
    FetchOrders(st, s, fetchOk)
  }

  /** Logging out from the list: the session ends. */
  function LogoutButtonTapped(s: Session): (r: Session)
    ensures r.currentUser.None? && !IsUserLoggedIn(r)
    ensures StringFor(r.defaults, CurrentUsernameKey).None?
  {
    Logout(s)
  }
}
