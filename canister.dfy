/** The deployed canister of src/index.ts: five keyed stores and the
    endpoints that validate a request, read a record, compute a new stock
    level and write records back. Caller, clock and generated ids are
    parameters; a generated id is assumed not to be a key already. */
module Canister {
  import opened Common
  import opened KeyedStore
  import opened CanisterTypes
  import opened CanisterRules

  /** Some stored user has `name` as username, ignoring the case of ASCII letters. */
  ghost predicate UsernameTaken(users: map<string, User>, name: string) {
    exists k :: k in users && SameUsername(users[k].username, name)
  }

  /** Some stored user other than the one with id `userId` has `name` as username. */
  ghost predicate UsernameTakenByOther(users: map<string, User>, userId: string, name: string) {
    exists k :: k in users && users[k].id != userId && SameUsername(users[k].username, name)
  }

  /** No two stored users share a username, ignoring case. */
  ghost predicate UsernamesDistinct(users: map<string, User>) {
    forall a, b :: a in users && b in users && a != b ==>
      !SameUsername(users[a].username, users[b].username)
  }

  /** Replacing a user by one with the same id keeps usernames distinct when
      the username is unchanged or held by no other user. */
  lemma RenameKeepsDistinct(users: map<string, User>, userId: string, updated: User)
    requires UsernamesDistinct(users)
    requires forall k :: k in users ==> users[k].id == k
    requires userId in users && updated.id == userId
    requires updated.username == users[userId].username
             || !UsernameTakenByOther(users, userId, updated.username)
    ensures UsernamesDistinct(users[userId := updated])
  {
    var after := users[userId := updated];
    forall a, b | a in after && b in after && a != b
      ensures !SameUsername(after[a].username, after[b].username)
    {
      if a == userId {
        assert users[b].id == b;
      } else if b == userId {
        assert users[a].id == a;
      }
    }
  }

  /** Scanning the values of the user store is scanning the store. */
  lemma ScanIsLookup(users: map<string, User>, userId: string, name: string)
    ensures FindByUsername(InKeyOrder(users), name).Some? <==> UsernameTaken(users, name)
    ensures OtherHasUsername(InKeyOrder(users), userId, name) <==> UsernameTakenByOther(users, userId, name)
  {
    var keys := KeyOrder(users);
    ExistsInValues(users, keys, (u: User) => SameUsername(u.username, name));
    ExistsInValues(users, keys, (u: User) => u.id != userId && SameUsername(u.username, name));
  }

  /** `u` is stored under some key `k`, and no user stored under a smaller
      key has `name` as username, ignoring case. */
  ghost predicate FirstMatchByKey(users: map<string, User>, name: string, u: User) {
    exists k :: k in users && users[k] == u
      && forall j :: j in users && KeyLess(j, k) ==> !SameUsername(users[j].username, name)
  }

  /** The `find` scan over the listed users returns the match stored under
      the smallest key. */
  lemma FindIsFirstByKey(users: map<string, User>, name: string)
    ensures var f := FindByUsername(InKeyOrder(users), name);
            f.Some? ==> FirstMatchByKey(users, name, f.value)
  {
    var keys := KeyOrder(users);
    var all := ValuesAt(users, keys);
    var f := FindByUsername(all, name);
    if f.Some? {
      var i :| 0 <= i < |all| && all[i] == f.value
               && forall p :: 0 <= p < i ==> !SameUsername(all[p].username, name);
      var k := keys[i];
      assert users[k] == f.value;
      forall j | j in users && KeyLess(j, k) ensures !SameUsername(users[j].username, name) {
        NoEarlierMatch(users, keys, name, i, j);
      }
      assert FirstMatchByKey(users, name, f.value);
    }
  }

  /** A user stored under a key smaller than `keys[i]` is listed before
      position `i`, so it is not a match when no earlier listed user is. */
  lemma NoEarlierMatch(users: map<string, User>, keys: seq<string>, name: string, i: int, j: string)
    requires Enumerates(users, keys) && Ascending(keys)
    requires 0 <= i < |keys| && j in users && KeyLess(j, keys[i])
    requires forall p :: 0 <= p < i ==> !SameUsername(ValuesAt(users, keys)[p].username, name)
    ensures !SameUsername(users[j].username, name)
  {
    var p :| 0 <= p < |keys| && keys[p] == j;
    SmallerKeyFirst(keys, i, p);
    assert ValuesAt(users, keys)[p] == users[j];
  }

  /** `getAllUsers` pages one fixed listing of the users, so for any page
      size the pages 0, 1, 2, ... of an unchanged store hand out every user
      exactly once, in key order. */
  lemma UserPagesCoverUsers(users: map<string, User>, pageSize: nat)
    requires pageSize > 0
    ensures PagesFrom(InKeyOrder(users), 0, pageSize) == InKeyOrder(users)
    ensures |PagesFrom(InKeyOrder(users), 0, pageSize)| == |users|
    ensures forall u :: u in PagesFrom(InKeyOrder(users), 0, pageSize) <==> u in users.Values
  {
    PagesCoverAll(InKeyOrder(users), pageSize);
    ValuesAtAreStored(users, KeyOrder(users));
  }

  /** Filtering the listed products by type selects exactly the stored
      products of that type, and selects none iff the store holds none. */
  lemma FilterIsTypeLookup(products: map<string, LiquorProduct>, t: LiquorType)
    ensures var sel := FilterByType(InKeyOrder(products), t);
      forall p :: p in sel ==> p.liquorType == t && p in products.Values
    ensures var sel := FilterByType(InKeyOrder(products), t);
      forall k :: k in products && products[k].liquorType == t ==> products[k] in sel
    ensures |FilterByType(InKeyOrder(products), t)| == 0
      <==> forall k :: k in products ==> products[k].liquorType != t
  {
    var sel := FilterByType(InKeyOrder(products), t);
    ValuesAtAreStored(products, KeyOrder(products));
    if |sel| != 0 {
      assert sel[0] in sel;
      var k :| k in products && products[k] == sel[0];
      assert products[k].liquorType == t;
    }
  }

  /** The `list...` endpoints: every record of a store, or `ProductDoesNotExist`
      when the store is empty. */
  method ListAll<V(==)>(m: map<string, V>) returns (r: Result<seq<V>, Errors>)
    ensures |m| == 0 ==> r == Err(ProductDoesNotExist)
    ensures r.Ok? <==> |m| != 0
    ensures r.Ok? ==> r.value == InKeyOrder(m) && |r.value| == |m|
    ensures r.Ok? ==> forall v :: v in r.value <==> v in m.Values
  {
    var all := Values(m);
    if |all| == 0 {
      return Err(ProductDoesNotExist);
    }
    ValuesAtAreStored(m, KeyOrder(m));
    r := Ok(all);
  }

  class LiquorCanister {
    var users: map<string, User>
    var products: map<string, LiquorProduct>
    var events: map<string, SupplyChainEvent>
    var sales: map<string, SaleRecord>
    var adjustments: map<string, InventoryAdjustment>

    /** Every record is stored under its own id, and usernames are unique
        up to case. */
    ghost predicate Valid()
      reads this
    {
      && (forall k :: k in users ==> users[k].id == k)
      && (forall k :: k in products ==> products[k].id == k)
      && (forall k :: k in events ==> events[k].id == k)
      && (forall k :: k in sales ==> sales[k].id == k)
      && (forall k :: k in adjustments ==> adjustments[k].id == k)
      && UsernamesDistinct(users)
    }

    constructor ()
      ensures Valid()
      ensures users == map[] && products == map[] && events == map[]
      ensures sales == map[] && adjustments == map[]
    {
      users, products, events, sales, adjustments := map[], map[], map[], map[], map[];
    }

    // ------------------------------------------------------------------
    // Users
    // ------------------------------------------------------------------

    /** `registerUser`. */
    method RegisterUser(payload: UserPayload, userId: string, caller: Principal, now: string)
      returns (r: Result<User, Errors>)
      requires Valid()
      requires userId !in users
      modifies this`users
      ensures Valid()
      ensures payload.username == [] ==> r == Err(InvalidPayload)
      ensures !IsValidUsername(payload.username) ==> r == Err(InvalidPayload)
      ensures IsValidUsername(payload.username) && !IsValidContactInfo(payload.contactInfo)
        ==> r == Err(InvalidPayload)
      ensures (IsValidUsername(payload.username) && IsValidContactInfo(payload.contactInfo)
               && UsernameTaken(old(users), payload.username)) ==> r == Err(UserAlreadyExists)
      ensures r.Ok? <==> (IsValidUsername(payload.username) && IsValidContactInfo(payload.contactInfo)
                          && !UsernameTaken(old(users), payload.username))
      ensures r.Err? ==> users == old(users)
      ensures r.Ok? ==> (&& r.value.id == userId && r.value.owner == caller
                         && r.value.username == payload.username && r.value.role == payload.role
                         && r.value.contactInfo == payload.contactInfo
                         && r.value.points == 0 && r.value.createdAt == now && r.value.lastUpdated == now)
      ensures r.Ok? ==> users == old(users)[userId := r.value]
    {
      if payload.username == [] {
        return Err(InvalidPayload);
      }
      if !IsValidUsername(payload.username) {
        return Err(InvalidPayload);
      }
      if !IsValidContactInfo(payload.contactInfo) {
        return Err(InvalidPayload);
      }
      var existing := FindUser(payload.username);
      if existing.Some? {
        return Err(UserAlreadyExists);
      }
      var newUser := User(userId, caller, payload.username, payload.role, 0,
                          payload.contactInfo, now, now);
      users := users[userId := newUser];
      r := Ok(newUser);
    }

    /** The scan of `registerUser`: the first listed user whose username
        equals `name`, ignoring case. */
    method FindUser(name: string) returns (found: Option<User>)
      ensures found.Some? <==> UsernameTaken(users, name)
      ensures found.Some? ==> found.value in users.Values && SameUsername(found.value.username, name)
      ensures found.Some? ==> FirstMatchByKey(users, name, found.value)
    {
      var all := Values(users);
      ScanIsLookup(users, "", name);
      ValuesAtAreStored(users, KeyOrder(users));
      FindIsFirstByKey(users, name);
      found := FindByUsername(all, name);
    }

    /** `getUser`. */
    method GetUser(userId: string) returns (r: Result<User, Errors>)
      ensures userId !in users ==> r == Err(UserDoesNotExist)
      ensures r.Ok? <==> userId in users
      ensures r.Ok? ==> r.value == users[userId]
    {
      if userId !in users {
        return Err(UserDoesNotExist);
      }
      r := Ok(users[userId]);
    }

    /** `getAllUsers`: one page of the users, in the order `values()` lists
        them; the page arithmetic is `PageOf`. */
    method GetAllUsers(payload: GetAllUsersPayload) returns (r: Result<seq<User>, Errors>)
      ensures r == PageOf(InKeyOrder(users), payload.page, payload.pageSize)
      ensures r.Ok? ==> forall u :: u in r.value ==> u in users.Values
    {
      var all := Values(users);
      r := PageOf(all, payload.page, payload.pageSize);
      ValuesAtAreStored(users, KeyOrder(users));
      if r.Ok? {
        forall u | u in r.value ensures u in all {
          var i :| 0 <= i < |r.value| && r.value[i] == u;
          assert u == all[payload.page * payload.pageSize + i];
        }
      }
    }

    /** The scan of `updateUser`: does a user with another id hold `name`,
        ignoring case? */
    method TakenByOther(userId: string, name: string) returns (taken: bool)
      ensures taken <==> UsernameTakenByOther(users, userId, name)
    {
      var all := Values(users);
      ScanIsLookup(users, userId, name);
      taken := OtherHasUsername(all, userId, name);
    }

    /** `updateUser`: a changed username must be valid and not taken by
        another user; the contact information is not checked. */
    method UpdateUser(userId: string, payload: UserPayload, now: string) returns (r: Result<User, Errors>)
      requires Valid()
      modifies this`users
      ensures Valid()
      ensures userId !in old(users) ==> r == Err(UserDoesNotExist)
      ensures (userId in old(users) && payload.username != old(users)[userId].username
               && !IsValidUsername(payload.username)) ==> r == Err(InvalidPayload)
      ensures (userId in old(users) && payload.username != old(users)[userId].username
               && IsValidUsername(payload.username)
               && UsernameTakenByOther(old(users), userId, payload.username)) ==> r == Err(UserAlreadyExists)
      ensures r.Ok? <==> (userId in old(users)
                          && (payload.username == old(users)[userId].username
                              || (IsValidUsername(payload.username)
                                  && !UsernameTakenByOther(old(users), userId, payload.username))))
      ensures r.Err? ==> users == old(users)
      ensures r.Ok? ==> r.value == old(users)[userId].(username := payload.username, role := payload.role,
                                                       contactInfo := payload.contactInfo, lastUpdated := now)
      ensures r.Ok? ==> users == old(users)[userId := r.value]
    {
      if userId !in users {
        return Err(UserDoesNotExist);
      }
      var existingUser := users[userId];
      if payload.username != existingUser.username {
        if !IsValidUsername(payload.username) {
          return Err(InvalidPayload);
        }
        var taken := TakenByOther(userId, payload.username);
        if taken {
          return Err(UserAlreadyExists);
        }
      }
      var updatedUser := existingUser.(username := payload.username, role := payload.role,
                                       contactInfo := payload.contactInfo, lastUpdated := now);
      RenameKeepsDistinct(users, userId, updatedUser);
      users := users[userId := updatedUser];
      r := Ok(updatedUser);
    }

    /** `deleteUser`. */
    method DeleteUser(userId: string) returns (r: Result<(), Errors>)
      requires Valid()
      modifies this`users
      ensures Valid()
      ensures userId !in old(users) ==> r == Err(UserDoesNotExist)
      ensures r.Ok? <==> userId in old(users)
      ensures r.Err? ==> users == old(users)
      ensures r.Ok? ==> users == old(users) - {userId}
    {
      if userId !in users {
        return Err(UserDoesNotExist);
      }
      users := users - {userId};
      r := Ok(());
    }

    // ------------------------------------------------------------------
    // Product catalogue
    // ------------------------------------------------------------------

    /** `addLiquorProduct`: no uniqueness check on the name, and the stored
        stock is one more than the payload's. */
    method AddLiquorProduct(payload: LiquorProductPayload, productId: string) returns (r: Result<LiquorProduct, Errors>)
      requires Valid()
      requires productId !in products
      modifies this`products
      ensures Valid()
      ensures payload.name == [] ==> r == Err(InvalidPayload)
      ensures r.Ok? <==> payload.name != []
      ensures r.Err? ==> products == old(products)
      ensures r.Ok? ==> r.value.currentStock == payload.currentStock + 1
      ensures r.Ok? ==> r.value == ProductWithId(productId, payload).(currentStock := payload.currentStock + 1)
      ensures r.Ok? ==> products == old(products)[productId := r.value]
    {
      if payload.name == [] {
        return Err(InvalidPayload);
      }
      var stocked := payload.(currentStock := payload.currentStock + 1);
      var product := ProductWithId(productId, stocked);
      products := products[productId := product];
      r := Ok(product);
    }

    /** `getLiquorProduct`. */
    method GetLiquorProduct(productId: string) returns (r: Result<LiquorProduct, Errors>)
      ensures productId !in products ==> r == Err(ProductDoesNotExist)
      ensures r.Ok? <==> productId in products
      ensures r.Ok? ==> r.value == products[productId]
    {
      if productId !in products {
        return Err(ProductDoesNotExist);
      }
      r := Ok(products[productId]);
    }

    /** `getLiquorProductsByType`: an empty selection is an error. */
    method GetLiquorProductsByType(liquorType: LiquorType) returns (r: Result<seq<LiquorProduct>, Errors>)
      ensures r.Err? <==> forall k :: k in products ==> products[k].liquorType != liquorType
      ensures r.Err? ==> r.error == ProductDoesNotExist
      ensures r.Ok? ==> r.value == FilterByType(InKeyOrder(products), liquorType)
      ensures r.Ok? ==> forall p :: p in r.value ==> p.liquorType == liquorType && p in products.Values
      ensures r.Ok? ==> forall k :: k in products && products[k].liquorType == liquorType ==> products[k] in r.value
    {
      var all := Values(products);
      var selected := FilterByType(all, liquorType);
      FilterIsTypeLookup(products, liquorType);
      if |selected| == 0 {
        return Err(ProductDoesNotExist);
      }
      r := Ok(selected);
    }

    /** `listAllProducts`. */
    method ListAllProducts() returns (r: Result<seq<LiquorProduct>, Errors>)
      ensures |products| == 0 ==> r == Err(ProductDoesNotExist)
      ensures r.Ok? <==> |products| != 0
      ensures r.Ok? ==> r.value == InKeyOrder(products)
      ensures r.Ok? ==> forall v :: v in r.value <==> v in products.Values
    {
      r := ListAll(products);
    }

    /** `updateLiquorProduct`: every payload field, the stock included,
        replaces the stored one; the id is kept. */
    method UpdateLiquorProduct(productId: string, payload: LiquorProductPayload) returns (r: Result<LiquorProduct, Errors>)
      requires Valid()
      modifies this`products
      ensures Valid()
      ensures productId !in old(products) ==> r == Err(ProductDoesNotExist)
      ensures r.Ok? <==> productId in old(products)
      ensures r.Err? ==> products == old(products)
      ensures r.Ok? ==> r.value.id == productId && r.value == ProductWithId(productId, payload)
      ensures r.Ok? ==> products == old(products)[productId := r.value]
    {
      if productId !in products {
        return Err(ProductDoesNotExist);
      }
      var existingProduct := products[productId];
      var updatedProduct := ProductWithId(existingProduct.id, payload);
      products := products[productId := updatedProduct];
      r := Ok(updatedProduct);
    }

    /** `deleteLiquorProduct`: sales and adjustments that name the product stay. */
    method DeleteLiquorProduct(productId: string) returns (r: Result<(), Errors>)
      requires Valid()
      modifies this`products
      ensures Valid()
      ensures productId !in old(products) ==> r == Err(ProductDoesNotExist)
      ensures r.Ok? <==> productId in old(products)
      ensures r.Err? ==> products == old(products)
      ensures r.Ok? ==> products == old(products) - {productId}
    {
      if productId !in products {
        return Err(ProductDoesNotExist);
      }
      products := products - {productId};
      r := Ok(());
    }

    // ------------------------------------------------------------------
    // Ledger
    // ------------------------------------------------------------------

    /** `sellLiquorProduct`: the stock check comes before the age check, the
        sale is priced at cost, the stock goes down by the quantity and one
        sale record is added. */
    method SellLiquorProduct(payload: SaleRecordPayload, saleId: string, now: string) returns (r: Result<SaleRecord, Errors>)
      requires Valid()
      requires saleId !in sales
      modifies this`products, this`sales
      ensures Valid()
      ensures payload.liquorProductId !in old(products) ==> r == Err(ProductDoesNotExist)
      ensures (payload.liquorProductId in old(products)
               && payload.quantity > old(products)[payload.liquorProductId].currentStock)
              ==> r == Err(InsufficientStock)
      ensures (payload.liquorProductId in old(products)
               && payload.quantity <= old(products)[payload.liquorProductId].currentStock
               && payload.customerAge < 18) ==> r == Err(AgeRestriction)
      ensures r.Ok? <==> (payload.liquorProductId in old(products)
                          && payload.quantity <= old(products)[payload.liquorProductId].currentStock
                          && payload.customerAge >= 18)
      ensures r.Err? ==> products == old(products) && sales == old(sales)
      ensures r.Ok? ==>
        var product := old(products)[payload.liquorProductId];
        && r.value == SaleRecord(saleId, payload.liquorProductId, payload.salesStaffId, payload.quantity,
                                 product.costPrice, payload.quantity * product.costPrice,
                                 payload.buyerId, payload.customerAge, now)
        && products == old(products)[payload.liquorProductId := product.(currentStock := product.currentStock - payload.quantity)]
        && products[payload.liquorProductId].currentStock + payload.quantity == product.currentStock
        && sales == old(sales)[saleId := r.value]
    {
      if payload.liquorProductId !in products {
        return Err(ProductDoesNotExist);
      }
      var product := products[payload.liquorProductId];
      if payload.quantity > product.currentStock {
        return Err(InsufficientStock);
      }
      if !IsLegalAge(payload.customerAge) {
        return Err(AgeRestriction);
      }
      var totalPrice := payload.quantity * product.costPrice;
      var saleRecord := SaleRecord(saleId, payload.liquorProductId, payload.salesStaffId, payload.quantity,
                                   product.costPrice, totalPrice, payload.buyerId, payload.customerAge, now);
      var updatedStock := product.currentStock - payload.quantity;
      var updatedProduct := product.(currentStock := updatedStock);
      products := products[payload.liquorProductId := updatedProduct];
      sales := sales[saleRecord.id := saleRecord];
      r := Ok(saleRecord);
    }

    /** `listAllSales`. */
    method ListAllSales() returns (r: Result<seq<SaleRecord>, Errors>)
      ensures |sales| == 0 ==> r == Err(ProductDoesNotExist)
      ensures r.Ok? <==> |sales| != 0
      ensures r.Ok? ==> r.value == InKeyOrder(sales)
      ensures r.Ok? ==> forall v :: v in r.value <==> v in sales.Values
    {
      r := ListAll(sales);
    }

    /** `adjustInventory`: the quantity is unsigned, so the stock can only
        grow; one adjustment record is added. */
    method AdjustInventory(payload: InventoryAdjustmentPayload, adjustmentId: string, now: string)
      returns (r: Result<InventoryAdjustment, Errors>)
      requires Valid()
      requires adjustmentId !in adjustments
      modifies this`products, this`adjustments
      ensures Valid()
      ensures payload.liquorProductId !in old(products) ==> r == Err(ProductDoesNotExist)
      ensures r.Ok? <==> payload.liquorProductId in old(products)
      ensures r.Err? ==> products == old(products) && adjustments == old(adjustments)
      ensures r.Ok? ==>
        var product := old(products)[payload.liquorProductId];
        && r.value == AdjustmentWithId(adjustmentId, payload, now)
        && products == old(products)[payload.liquorProductId := product.(currentStock := product.currentStock + payload.quantityChanged)]
        && products[payload.liquorProductId].currentStock == product.currentStock + payload.quantityChanged
        && products[payload.liquorProductId].currentStock >= product.currentStock
        && adjustments == old(adjustments)[adjustmentId := r.value]
    {
      if payload.liquorProductId !in products {
        return Err(ProductDoesNotExist);
      }
      var product := products[payload.liquorProductId];
      product := product.(currentStock := product.currentStock + payload.quantityChanged);
      var adjustment := AdjustmentWithId(adjustmentId, payload, now);
      products := products[payload.liquorProductId := product];
      adjustments := adjustments[adjustment.id := adjustment];
      r := Ok(adjustment);
    }

    /** `listAllInventoryAdjustments`. */
    method ListAllInventoryAdjustments() returns (r: Result<seq<InventoryAdjustment>, Errors>)
      ensures |adjustments| == 0 ==> r == Err(ProductDoesNotExist)
      ensures r.Ok? <==> |adjustments| != 0
      ensures r.Ok? ==> r.value == InKeyOrder(adjustments)
      ensures r.Ok? ==> forall v :: v in r.value <==> v in adjustments.Values
    {
      r := ListAll(adjustments);
    }

    /** `logSupplyChainEvent`: appends the event without looking the product
        up and without touching any stock. */
    method LogSupplyChainEvent(payload: SupplyChainEventPayload, eventId: string, now: nat) returns (r: Result<(), Errors>)
      requires Valid()
      requires eventId !in events
      modifies this`events
      ensures Valid()
      ensures r == Ok(())
      ensures events == old(events)[eventId := EventWithId(eventId, payload, now)]
    {
      var event := EventWithId(eventId, payload, now);
      events := events[event.id := event];
      r := Ok(());
    }

    /** `listSupplyChainEvents`. */
    method ListSupplyChainEvents() returns (r: Result<seq<SupplyChainEvent>, Errors>)
      ensures |events| == 0 ==> r == Err(ProductDoesNotExist)
      ensures r.Ok? <==> |events| != 0
      ensures r.Ok? ==> r.value == InKeyOrder(events)
      ensures r.Ok? ==> forall v :: v in r.value <==> v in events.Values
    {
      r := ListAll(events);
    }

    /** `getSupplyChainEvent`. */
    method GetSupplyChainEvent(eventId: string) returns (r: Result<SupplyChainEvent, Errors>)
      ensures eventId !in events ==> r == Err(ProductDoesNotExist)
      ensures r.Ok? <==> eventId in events
      ensures r.Ok? ==> r.value == events[eventId]
    {
      if eventId !in events {
        return Err(ProductDoesNotExist);
      }
      r := Ok(events[eventId]);
    }
  }
}
