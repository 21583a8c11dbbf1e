/** `InventoryController` of the controller draft
    (src/controllers/InventoryController.ts). `callerText` stands for
    `ic.caller().toText()` and `now` for `ic.time()`. */
module InventoryController {
  import opened Common
  import opened DataType
  import opened Storage

  /** `{ id, ...payload, adjustmentDate }`. */
  function AdjustmentWithId(id: string, p: InventoryAdjustmentPayload, date: nat): InventoryAdjustment {
    InventoryAdjustment(id, p.liquorProductId, p.quantityChanged, p.reason, p.adjustedBy, date)
  }

  /** `adjustInventory`: the stock grows by the unsigned quantity; the product
      is written under its own `id` and the adjustment under the caller's
      id, replacing any earlier adjustment by the same caller. */
  method AdjustInventory(st: Stores, payload: InventoryAdjustmentPayload, callerText: string, now: nat)
    returns (r: Result<(), Errors>)
    modifies st`liquorProductsStorage, st`inventoryAdjustmentsStorage
    ensures payload.liquorProductId !in old(st.liquorProductsStorage) ==> r == Err(ProductDoesNotExist)
    ensures r.Ok? <==> payload.liquorProductId in old(st.liquorProductsStorage)
    ensures r.Err? ==> st.liquorProductsStorage == old(st.liquorProductsStorage)
                       && st.inventoryAdjustmentsStorage == old(st.inventoryAdjustmentsStorage)
    ensures r.Ok? ==>
      var product := old(st.liquorProductsStorage)[payload.liquorProductId];
      var adjusted := product.(currentStock := product.currentStock + payload.quantityChanged);
      && st.liquorProductsStorage == old(st.liquorProductsStorage)[product.id := adjusted]
      && st.liquorProductsStorage[product.id].currentStock >= product.currentStock
      && st.inventoryAdjustmentsStorage == old(st.inventoryAdjustmentsStorage)[callerText :=
           AdjustmentWithId(callerText, payload, now)]
  {
    if payload.liquorProductId !in st.liquorProductsStorage {
      return Err(ProductDoesNotExist);
    }
    var product := st.liquorProductsStorage[payload.liquorProductId];
    product := product.(currentStock := product.currentStock + payload.quantityChanged);
    var adjustment := AdjustmentWithId(callerText, payload, now);
    st.liquorProductsStorage := st.liquorProductsStorage[product.id := product];
    st.inventoryAdjustmentsStorage := st.inventoryAdjustmentsStorage[adjustment.id := adjustment];
    r := Ok(());
  }
}
