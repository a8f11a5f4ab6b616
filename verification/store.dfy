/** `CoreDataManager`: the persistent store of users and orders, modelled as
    an immutable value. Core Data's managed objects become records that carry
    their own identity (`id`); the store keeps them in insertion order, which
    is the order an unsorted fetch returns them in. */
module CoreDataManager {
  import opened Common
  import opened Sorting

  type Id = nat

  /** The `User` entity. The password is kept as typed, as in the application. */
  datatype User = User(id: Id, username: string, password: string, rememberMe: bool)

  /** The `Order` entity. `dueDate` is optional in the entity, although every
      order this application writes has one; `owner` is the `user`
      relationship, the id of the owning user. */
  datatype Order = Order(
    id: Id,
    orderNumber: string,
    dueDate: Option<Date>,
    buyerName: string,
    address: string,
    phone: string,
    total: real,
    owner: Id)

  /** The six values `createOrder` and `updateOrder` take. */
  datatype OrderFields = OrderFields(
    orderNumber: string,
    dueDate: Date,
    buyerName: string,
    address: string,
    phone: string,
    total: real)

  datatype Store = Store(users: seq<User>, orders: seq<Order>, nextId: Id)

  const EmptyStore := Store([], [], 0)

  /** Object identity: every id is below `nextId` and no two users, and no two
      orders, share one. */
  ghost predicate Valid(st: Store)
  {
    && (forall i :: 0 <= i < |st.users| ==> st.users[i].id < st.nextId)
    && (forall i :: 0 <= i < |st.orders| ==> st.orders[i].id < st.nextId)
    && (forall i, j :: 0 <= i < j < |st.users| ==> st.users[i].id != st.users[j].id)
    && (forall i, j :: 0 <= i < j < |st.orders| ==> st.orders[i].id != st.orders[j].id)
  }

  /** The invariant the data model documents but the store never enforces. */
  ghost predicate UniqueUsernames(users: seq<User>)
  {
    forall i, j :: 0 <= i < j < |users| ==> users[i].username != users[j].username
  }

  /** `o` holds exactly the six values of `f`. */
  ghost predicate HoldsFields(o: Order, f: OrderFields)
  {
    && o.orderNumber == f.orderNumber
    && o.dueDate == Some(f.dueDate)
    && o.buyerName == f.buyerName
    && o.address == f.address
    && o.phone == f.phone
    && o.total == f.total
  }

  // ---------------------------------------------------------------- users

  /** `context.count(for:)` with the predicate `username == %@`. */
  function CountUsername(users: seq<User>, username: string): (n: nat)
    ensures n <= |users|
    ensures n > 0 <==> exists u :: u in users && u.username == username
  {
    if |users| == 0 then 0
    else
      assert forall u :: u in users <==> u == users[0] || u in users[1..];
      (if users[0].username == username then 1 else 0) + CountUsername(users[1..], username)
  }

  /** `users.first` of a fetch filtered by `matches`. */
  function FirstUser(users: seq<User>, matches: User -> bool): (r: Option<User>)
    ensures r.Some? ==> r.value in users && matches(r.value)
    ensures r.None? <==> forall u :: u in users ==> !matches(u)
    ensures r.Some? ==> exists i :: 0 <= i < |users| && users[i] == r.value
                                    && forall j :: 0 <= j < i ==> !matches(users[j])
  {
    if |users| == 0 then None
    else if matches(users[0]) then Some(users[0])
    else
      var r := FirstUser(users[1..], matches);
      assert forall u :: u in users <==> u == users[0] || u in users[1..];
      if r.Some? then
        var i :| 0 <= i < |users[1..]| && users[1..][i] == r.value
                 && forall j :: 0 <= j < i ==> !matches(users[1..][j]);
        assert users[i + 1] == r.value;
        assert forall j :: 1 <= j < i + 1 ==> users[j] == users[1..][j - 1];
        r
      else r
  }

  /** Inserts a user with the given credentials and `rememberMe` off, then
      saves. There is no uniqueness check; on a failed save the insertion
      stays in the context and the result is false. */
  function CreateUser(st: Store, username: string, password: string, saved: bool): (r: (Store, bool))
    ensures r.1 == saved
    ensures r.0.orders == st.orders
    ensures |r.0.users| == |st.users| + 1 && r.0.users[..|st.users|] == st.users
    ensures var u := r.0.users[|st.users|];
            u.username == username && u.password == password && !u.rememberMe
            && forall v :: v in st.users && Valid(st) ==> v.id != u.id
    ensures Valid(st) ==> Valid(r.0)
  {
    var u := User(st.nextId, username, password, false);
    (Store(st.users + [u], st.orders, st.nextId + 1), saved)
  }

  /** True when some stored user has exactly this username; false when the
      count request fails. */
  function IsUsernameTaken(st: Store, username: string, fetchOk: bool): (taken: bool)
    ensures taken <==> fetchOk && exists u :: u in st.users && u.username == username
  {
    fetchOk && CountUsername(st.users, username) > 0
  }

  /** The first stored user whose username and password both equal the
      arguments (case-sensitive); None when there is none or the fetch fails. */
  function AuthenticateUser(st: Store, username: string, password: string, fetchOk: bool): (r: Option<User>)
    ensures r.Some? ==> r.value in st.users && r.value.username == username && r.value.password == password
    ensures r.None? <==> !fetchOk || forall u :: u in st.users ==> u.username != username || u.password != password
  {
    if fetchOk then FirstUser(st.users, (u: User) => u.username == username && u.password == password)
    else None
  }

  /** Sets `rememberMe` on one user and saves. */
  function UpdateUserRememberMe(st: Store, userId: Id, rememberMe: bool, saved: bool): (r: (Store, bool))
    ensures r.1 == saved
    ensures r.0.orders == st.orders && r.0.nextId == st.nextId
    ensures |r.0.users| == |st.users|
    ensures forall i :: 0 <= i < |st.users| ==>
              if st.users[i].id == userId then r.0.users[i] == st.users[i].(rememberMe := rememberMe)
              else r.0.users[i] == st.users[i]
    ensures Valid(st) ==> Valid(r.0)
    ensures UniqueUsernames(st.users) ==> UniqueUsernames(r.0.users)
  {
    var users := seq(|st.users|, i requires 0 <= i < |st.users| =>
      if st.users[i].id == userId then st.users[i].(rememberMe := rememberMe) else st.users[i]);
    (st.(users := users), saved)
  }

  // --------------------------------------------------------------- orders

  /** Inserts an order owned by the in-memory current user and saves. With no
      current user nothing is inserted and the result is false. */
  function CreateOrder(st: Store, currentUser: Option<User>, f: OrderFields, saved: bool): (r: (Store, bool))
    ensures currentUser.None? ==> r == (st, false)
    ensures currentUser.Some? ==>
              && r.1 == saved
              && r.0.users == st.users
              && |r.0.orders| == |st.orders| + 1
              && r.0.orders[..|st.orders|] == st.orders
              && HoldsFields(r.0.orders[|st.orders|], f)
              && r.0.orders[|st.orders|].owner == currentUser.value.id
    ensures Valid(st) ==> Valid(r.0)
  {
    match currentUser
    case None => (st, false)
    case Some(user) =>
      var o := Order(st.nextId, f.orderNumber, Some(f.dueDate), f.buyerName, f.address, f.phone, f.total, user.id);
      (Store(st.users, st.orders + [o], st.nextId + 1), saved)
  }

  /** Overwrites the six fields of the order with id `orderId` and saves. The
      order keeps its id and its owner; no ownership check is made. */
  function UpdateOrder(st: Store, orderId: Id, f: OrderFields, saved: bool): (r: (Store, bool))
    ensures r.1 == saved
    ensures r.0.users == st.users && r.0.nextId == st.nextId
    ensures |r.0.orders| == |st.orders|
    ensures forall i :: 0 <= i < |st.orders| ==>
              && r.0.orders[i].id == st.orders[i].id
              && r.0.orders[i].owner == st.orders[i].owner
              && (st.orders[i].id == orderId ==> HoldsFields(r.0.orders[i], f))
              && (st.orders[i].id != orderId ==> r.0.orders[i] == st.orders[i])
    ensures Valid(st) ==> Valid(r.0)
  {
    var orders := seq(|st.orders|, i requires 0 <= i < |st.orders| =>
      var o := st.orders[i];
      if o.id == orderId then
        o.(orderNumber := f.orderNumber, dueDate := Some(f.dueDate), buyerName := f.buyerName,
           address := f.address, phone := f.phone, total := f.total)
      else o);
    (st.(orders := orders), saved)
  }

  /** `orders` without the order whose id is `orderId`, others in place. */
  function Without(orders: seq<Order>, orderId: Id): (r: seq<Order>)
    ensures |r| <= |orders|
    ensures forall o :: o in r <==> o in orders && o.id != orderId
    ensures forall i :: 0 <= i < |r| ==> r[i].id != orderId
  {
    if |orders| == 0 then []
    else
      assert forall o :: o in orders <==> o == orders[0] || o in orders[1..];
      if orders[0].id == orderId then Without(orders[1..], orderId)
      else [orders[0]] + Without(orders[1..], orderId)
  }

  /** Deletes the order with id `orderId` and saves; users are untouched. */
  function DeleteOrder(st: Store, orderId: Id, saved: bool): (r: (Store, bool))
    ensures r.1 == saved
    ensures r.0.users == st.users && r.0.nextId == st.nextId
    ensures forall o :: o in r.0.orders <==> o in st.orders && o.id != orderId
    ensures Valid(st) ==> Valid(r.0)
  {
    var orders := Without(st.orders, orderId);
    assert Valid(st) ==> Valid(Store(st.users, orders, st.nextId)) by {
      if Valid(st) {
        WithoutKeepsDistinctIds(st.orders, orderId, st.nextId);
      }
    }
    (st.(orders := orders), saved)
  }

  ghost predicate DistinctIdsBelow(orders: seq<Order>, bound: Id)
  {
    && (forall i :: 0 <= i < |orders| ==> orders[i].id < bound)
    && (forall i, j :: 0 <= i < j < |orders| ==> orders[i].id != orders[j].id)
  }

  lemma {:induction false} WithoutKeepsDistinctIds(orders: seq<Order>, orderId: Id, bound: Id)
    requires DistinctIdsBelow(orders, bound)
    ensures DistinctIdsBelow(Without(orders, orderId), bound)
  {
    if |orders| > 0 {
      var rest := orders[1..];
      assert DistinctIdsBelow(rest, bound) by {
        assert forall i :: 0 <= i < |rest| ==> rest[i] == orders[i + 1];
      }
      WithoutKeepsDistinctIds(rest, orderId, bound);
      if orders[0].id != orderId {
        var w := Without(rest, orderId);
        forall k | 0 <= k < |w| ensures w[k].id != orders[0].id {
          assert w[k] in w;
          var m :| 0 <= m < |rest| && rest[m] == w[k];
          assert rest[m] == orders[m + 1];
        }
      }
    }
  }

  /** With object identity, deleting an order that exists removes exactly
      one order. */
  lemma {:induction false} DeleteRemovesExactlyOne(orders: seq<Order>, orderId: Id, bound: Id)
    requires DistinctIdsBelow(orders, bound)
    requires exists o :: o in orders && o.id == orderId
    ensures |Without(orders, orderId)| == |orders| - 1
  {
    var rest := orders[1..];
    assert forall i :: 0 <= i < |rest| ==> rest[i] == orders[i + 1];
    if orders[0].id == orderId {
      WithoutAbsent(rest, orderId);
    } else {
      var o :| o in orders && o.id == orderId;
      assert o in rest;
      DeleteRemovesExactlyOne(rest, orderId, bound);
    }
  }

  lemma {:induction false} WithoutAbsent(orders: seq<Order>, orderId: Id)
    requires forall i :: 0 <= i < |orders| ==> orders[i].id != orderId
    ensures Without(orders, orderId) == orders
  {
    if |orders| > 0 {
      WithoutAbsent(orders[1..], orderId);
      assert orders == [orders[0]] + orders[1..];
    }
  }

  // ---------------------------------------------------------------- fetch

  /** The orders whose `user` relationship is `owner`, in store order. */
  function OwnedBy(orders: seq<Order>, owner: Id): (r: seq<Order>)
    ensures |r| <= |orders|
    ensures forall o :: o in r <==> o in orders && o.owner == owner
  {
    if |orders| == 0 then []
    else
      assert forall o :: o in orders <==> o == orders[0] || o in orders[1..];
      if orders[0].owner == owner then [orders[0]] + OwnedBy(orders[1..], owner)
      else OwnedBy(orders[1..], owner)
  }

  /** The store's sort descriptor `dueDate` ascending. An order without a due
      date compares below every dated one, as SQLite orders NULL first. */
  predicate StoreDueDateLe(a: Order, b: Order)
  {
    match (a.dueDate, b.dueDate)
    case (None, _) => true
    case (Some(_), None) => false
    case (Some(x), Some(y)) => x <= y
  }

  lemma StoreDueDateLeIsTotalPreorder()
    ensures TotalPreorder(StoreDueDateLe)
  {
  }

  /** The orders owned by `user`, sorted by due date ascending; [] when the
      fetch fails. */
  function FetchOrdersForUser(st: Store, user: User, fetchOk: bool): (r: seq<Order>)
    ensures !fetchOk ==> r == []
    ensures fetchOk ==> multiset(r) == multiset(OwnedBy(st.orders, user.id))
    ensures forall o :: o in r <==> fetchOk && o in st.orders && o.owner == user.id
    ensures SortedBy(r, StoreDueDateLe)
  {
    if !fetchOk then []
    else
      StoreDueDateLeIsTotalPreorder();
      var r := SortBy(OwnedBy(st.orders, user.id), StoreDueDateLe);
      PermutationKeepsMembers(r, OwnedBy(st.orders, user.id));
      r
  }
}
