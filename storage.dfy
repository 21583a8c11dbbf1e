/** The five stable maps the controllers share (src/storage/storage.ts),
    held as `map` fields that the controller operations reassign. */
module Storage {
  import opened DataType

  class Stores {
    var usersStorage: map<string, User>
    var liquorProductsStorage: map<string, LiquorProduct>
    var supplyChainEventsStorage: map<string, SupplyChainEvent>
    var saleRecordsStorage: map<string, SaleRecord>
    var inventoryAdjustmentsStorage: map<string, InventoryAdjustment>

    constructor ()
      ensures usersStorage == map[] && liquorProductsStorage == map[]
      ensures supplyChainEventsStorage == map[] && saleRecordsStorage == map[]
      ensures inventoryAdjustmentsStorage == map[]
    {
      usersStorage, liquorProductsStorage, supplyChainEventsStorage := map[], map[], map[];
      saleRecordsStorage, inventoryAdjustmentsStorage := map[], map[];
    }
  }
}
