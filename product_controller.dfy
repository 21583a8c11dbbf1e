/** `ProductController` of the controller draft
    (src/controllers/ProductController.ts): a catalogue keyed by product
    name, record ids taken from the caller, a legal age of 21 and sales
    priced at retail. `callerJson` stands for `JSON.stringify(ic.caller())`
    and `now` for `ic.time()`. */
module ProductController {
  import opened Common
  import opened DataType
  import opened Storage

  /** The age below which the draft refuses a sale. */
  const LEGAL_AGE: nat := 21

  /** `{ id, ...payload }`. */
  function ProductWithId(id: string, p: LiquorProductPayload): LiquorProduct {
    LiquorProduct(id, p.userId, p.name, p.productType, p.brand, p.alcoholContent, p.batchNumber,
                  p.vintageYear, p.bottleSize, p.costPrice, p.retailPrice, p.currentStock, p.expiryDate)
  }

  /** `addLiquorProduct`: inserts under the product's name, refusing a name
      already used as a key (compared exactly). */
  method AddLiquorProduct(st: Stores, payload: LiquorProductPayload, callerJson: string) returns (r: Result<(), Errors>)
    modifies st`liquorProductsStorage
    ensures payload.name == [] ==> r == Err(InvalidPayload)
    ensures (payload.name != [] && payload.name in old(st.liquorProductsStorage)) ==> r == Err(ProductAlreadyExists)
    ensures r.Ok? <==> (payload.name != [] && payload.name !in old(st.liquorProductsStorage))
    ensures r.Err? ==> st.liquorProductsStorage == old(st.liquorProductsStorage)
    ensures r.Ok? ==> st.liquorProductsStorage == old(st.liquorProductsStorage)[payload.name := ProductWithId(callerJson, payload)]
  {
    if payload.name == [] {
      return Err(InvalidPayload);
    }
    if payload.name in st.liquorProductsStorage {
      return Err(ProductAlreadyExists);
    }
    var product := ProductWithId(callerJson, payload);
    st.liquorProductsStorage := st.liquorProductsStorage[payload.name := product];
    r := Ok(());
  }

  /** `sellLiquorProduct`: after the stock and age checks the decremented
      product is written under its own `id`, which need not be the key it
      was found under, and the sale under the caller's id, replacing any
      earlier sale by the same caller. */
  method SellLiquorProduct(st: Stores, payload: SaleRecordPayload, callerJson: string, now: nat) returns (r: Result<(), Errors>)
    modifies st`liquorProductsStorage, st`saleRecordsStorage
    ensures payload.liquorProductId !in old(st.liquorProductsStorage) ==> r == Err(ProductDoesNotExist)
    ensures (payload.liquorProductId in old(st.liquorProductsStorage)
             && old(st.liquorProductsStorage)[payload.liquorProductId].currentStock < payload.quantity)
            ==> r == Err(InsufficientStock)
    ensures (payload.liquorProductId in old(st.liquorProductsStorage)
             && old(st.liquorProductsStorage)[payload.liquorProductId].currentStock >= payload.quantity
             && payload.customerAge < 21) ==> r == Err(AgeRestriction)
    ensures r.Ok? <==> (payload.liquorProductId in old(st.liquorProductsStorage)
                        && old(st.liquorProductsStorage)[payload.liquorProductId].currentStock >= payload.quantity
                        && payload.customerAge >= 21)
    ensures r.Err? ==> st.liquorProductsStorage == old(st.liquorProductsStorage)
                       && st.saleRecordsStorage == old(st.saleRecordsStorage)
    ensures r.Ok? ==>
      var product := old(st.liquorProductsStorage)[payload.liquorProductId];
      var sold := product.(currentStock := product.currentStock - payload.quantity);
      && st.liquorProductsStorage == old(st.liquorProductsStorage)[product.id := sold]
      && st.liquorProductsStorage[product.id].currentStock + payload.quantity == product.currentStock
      && st.saleRecordsStorage == old(st.saleRecordsStorage)[callerJson :=
           SaleRecord(callerJson, payload.liquorProductId, payload.quantity,
                      product.retailPrice * payload.quantity, now, payload.salesStaffId, payload.customerAge)]
    ensures (r.Ok? && old(st.liquorProductsStorage)[payload.liquorProductId].id != payload.liquorProductId)
            ==> st.liquorProductsStorage[payload.liquorProductId] == old(st.liquorProductsStorage)[payload.liquorProductId]
  {
    if payload.liquorProductId !in st.liquorProductsStorage {
      return Err(ProductDoesNotExist);
    }
    var product := st.liquorProductsStorage[payload.liquorProductId];
    if product.currentStock < payload.quantity {
      return Err(InsufficientStock);
    }
    if payload.customerAge < LEGAL_AGE {
      return Err(AgeRestriction);
    }
    var sale := SaleRecord(callerJson, payload.liquorProductId, payload.quantity,
                           product.retailPrice * payload.quantity, now, payload.salesStaffId, payload.customerAge);
    product := product.(currentStock := product.currentStock - payload.quantity);
    st.liquorProductsStorage := st.liquorProductsStorage[product.id := product];
    st.saleRecordsStorage := st.saleRecordsStorage[sale.id := sale];
    r := Ok(());
  }
}
