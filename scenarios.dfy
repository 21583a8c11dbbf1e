/** Short call sequences on both versions, each proved from the contracts
    of the operations alone. They record where the code departs from the
    behaviour one would expect of an inventory ledger: the extra unit added
    on insertion, pricing at cost, names that may repeat, and the draft's
    sale that writes the product under a different key. */
module Scenarios {
  import opened Common
  import opened CanisterTypes
  import opened CanisterRules
  import opened Canister
  import opened KeyedStore
  import Storage
  import DataType
  import ProductController
  import SupplyController

  function Glenfiddich(stock: nat): LiquorProductPayload {
    LiquorProductPayload("Glenfiddich 12", Whiskey, LiquorBrand.Other, 40, "B-1", None, "750ml",
                         40, 50, stock, None)
  }

  /** Adding a product with stock 10 and selling 3 of it leaves 8, not 7,
      and the sale is priced at cost (3 * 40), not at retail (3 * 50). */
  method SaleAfterAdd() returns (stock: nat, totalPrice: nat)
    ensures stock == 8 && totalPrice == 120
  {
    var c := new LiquorCanister();
    var added := c.AddLiquorProduct(Glenfiddich(10), "p1");
    assert c.products["p1"].currentStock == 11;
    var sold := c.SellLiquorProduct(SaleRecordPayload("p1", "staff", 3, "buyer", 25), "s1", "t1");
    assert sold.Ok?;
    stock := c.products["p1"].currentStock;
    totalPrice := sold.value.totalPrice;
  }

  /** With 2 in stock, selling 3 fails on stock even to a 17-year-old, selling 1
      to a 17-year-old fails on age, and neither changes the stock or the sales. */
  method RefusedSales() returns (short: Result<SaleRecord, Errors>, young: Result<SaleRecord, Errors>,
                                 stock: nat, saleCount: nat)
    ensures short == Err(InsufficientStock) && young == Err(AgeRestriction)
    ensures stock == 2 && saleCount == 0
  {
    var c := new LiquorCanister();
    var added := c.AddLiquorProduct(Glenfiddich(1), "p1");
    assert c.products["p1"].currentStock == 2 && c.sales == map[];
    short := c.SellLiquorProduct(SaleRecordPayload("p1", "staff", 3, "buyer", 17), "s1", "t1");
    assert c.products["p1"].currentStock == 2 && c.sales == map[];
    young := c.SellLiquorProduct(SaleRecordPayload("p1", "staff", 1, "buyer", 17), "s1", "t2");
    stock := c.products["p1"].currentStock;
    saleCount := |c.sales|;
  }

  /** "Alice" is taken once a user named "alice" is stored. */
  lemma AliceTaken(users: map<string, User>)
    requires "u1" in users && users["u1"].username == "alice"
    ensures UsernameTaken(users, "Alice")
  {
    assert forall i :: 0 <= i < 5 ==> ToLower("Alice")[i] == ToLower("alice")[i];
    assert SameUsername(users["u1"].username, "Alice");
  }

  /** A fresh canister in which "alice" has registered. */
  method AliceRegistered() returns (c: LiquorCanister, first: Result<User, Errors>)
    ensures fresh(c) && c.Valid()
    ensures first.Ok? && first.value.username == "alice"
    ensures c.users == map["u1" := first.value]
  {
    c := new LiquorCanister();
    first := c.RegisterUser(UserPayload("alice", Customer, "alice@example.com"), "u1", "caller-1", "t1");
  }

  /** Usernames differing only in case collide: "Alice" is refused once
      "alice" is registered. */
  method CaseInsensitiveUsernames() returns (first: Result<User, Errors>, second: Result<User, Errors>)
    ensures first.Ok? && second == Err(UserAlreadyExists)
  {
    var c;
    c, first := AliceRegistered();
    AliceTaken(c.users);
    second := c.RegisterUser(UserPayload("Alice", Staff, "alice@example.com"), "u2", "caller-2", "t2");
  }

  /** "bob" is free while every stored username has five letters. */
  lemma BobFree(users: map<string, User>)
    requires forall k :: k in users ==> |users[k].username| == 5
    ensures !UsernameTaken(users, "bob")
  {
    forall k | k in users ensures !SameUsername(users[k].username, "bob") {
      assert |ToLower(users[k].username)| == 5;
    }
  }

  /** A store holding ids "u1" and "u2" lists the first before the second. */
  lemma TwoUsersInKeyOrder(users: map<string, User>, a: User, b: User)
    requires users == map["u1" := a, "u2" := b]
    ensures InKeyOrder(users) == [a, b]
  {
    assert KeyLess("u1", "u2");
    KeyOrderIs(users, ["u1", "u2"]);
  }

  /** A fresh canister in which "alice" and then "bob" have registered. */
  method AliceAndBobRegistered() returns (c: LiquorCanister, alice: User, bob: User)
    ensures fresh(c) && c.Valid()
    ensures alice.username == "alice" && bob.username == "bob"
    ensures c.users == map["u1" := alice, "u2" := bob]
  {
    var first;
    c, first := AliceRegistered();
    BobFree(c.users);
    var second := c.RegisterUser(UserPayload("bob", Customer, "bob@example.com"), "u2", "caller-2", "t2");
    alice, bob := first.value, second.value;
  }

  /** Two pages of size one over "alice" (id "u1") and "bob" (id "u2"): each
      call lists the users in the same key order, so page 0 holds alice,
      page 1 holds bob and page 2 is refused. */
  method PagingTwoUsers() returns (p0: Result<seq<User>, Errors>, p1: Result<seq<User>, Errors>,
                                   p2: Result<seq<User>, Errors>)
    ensures p0.Ok? && |p0.value| == 1 && p0.value[0].username == "alice"
    ensures p1.Ok? && |p1.value| == 1 && p1.value[0].username == "bob"
    ensures p2 == Err(InvalidPayload)
  {
    var c, alice, bob := AliceAndBobRegistered();
    TwoUsersInKeyOrder(c.users, alice, bob);
    p0 := c.GetAllUsers(GetAllUsersPayload(0, 1));
    p1 := c.GetAllUsers(GetAllUsersPayload(1, 1));
    p2 := c.GetAllUsers(GetAllUsersPayload(2, 1));
  }

  /** The canister accepts two products named "Vodka"; the draft refuses the
      second "Vodka" but accepts "vodka". */
  method RepeatedProductNames() returns (canisterCount: nat, again: Result<(), DataType.Errors>,
                                         lower: Result<(), DataType.Errors>)
    ensures canisterCount == 2
    ensures again == Err(DataType.ProductAlreadyExists) && lower.Ok?
  {
    var c := new LiquorCanister();
    var vodka := Glenfiddich(5).(name := "Vodka", liquorType := Vodka);
    var a := c.AddLiquorProduct(vodka, "p1");
    assert a.Ok? && c.products.Keys == {"p1"};
    var b := c.AddLiquorProduct(vodka, "p2");
    assert b.Ok?;
    assert c.products.Keys == {"p1", "p2"};
    canisterCount := |c.products|;

    var st := new Storage.Stores();
    var draft := DataType.LiquorProductPayload("Vodka", "owner", "Vodka", "Smirnoff", 40, "B-2", None,
                                               "1l", 10, 15, 5, None);
    var first := ProductController.AddLiquorProduct(st, draft, "c1");
    assert first.Ok? && "Vodka" in st.liquorProductsStorage && "vodka" !in st.liquorProductsStorage;
    again := ProductController.AddLiquorProduct(st, draft, "c2");
    lower := ProductController.AddLiquorProduct(st, draft.(name := "vodka"), "c3");
  }

  /** In the draft, a product added by caller c is stored under its name with
      id c; selling 3 of 10 writes the decremented product under key c and
      leaves the entry under the name at 10. */
  method DraftSaleMissesCatalogueKey() returns (catalogued: nat, written: nat)
    ensures catalogued == 10 && written == 7
  {
    var st := new Storage.Stores();
    var draft := DataType.LiquorProductPayload("Vodka", "owner", "Vodka", "Smirnoff", 40, "B-2", None,
                                               "1l", 10, 15, 10, None);
    var added := ProductController.AddLiquorProduct(st, draft, "c");
    var sold := ProductController.SellLiquorProduct(st, DataType.SaleRecordPayload("Vodka", 3, "staff", 30), "c", 1);
    catalogued := st.liquorProductsStorage["Vodka"].currentStock;
    written := st.liquorProductsStorage["c"].currentStock;
  }

  /** Two events logged by the same caller leave a single event, the later one. */
  method SameCallerEvents() returns (count: nat, location: string)
    ensures count == 1 && location == "Warehouse B"
  {
    var st := new Storage.Stores();
    var r1 := SupplyController.LogSupplyChainEvent(st, DataType.SupplyChainEventPayload("Vodka", "Received", "Warehouse A", 10, "p"), "c", 1);
    var r2 := SupplyController.LogSupplyChainEvent(st, DataType.SupplyChainEventPayload("Vodka", "Sold", "Warehouse B", 2, "p"), "c", 2);
    assert st.supplyChainEventsStorage.Keys == {"c"};
    count := |st.supplyChainEventsStorage|;
    location := st.supplyChainEventsStorage["c"].location;
  }
}
