/** The record and payload shapes of the controller draft
    (src/dataType/dataType.ts). There the variants are plain text, `nat64`
    is `nat`, and a user's id is the caller's principal. */
module DataType {
  import opened Common

  datatype User = User(
    id: Principal,
    username: string,
    role: string,
    points: nat,
    contactInfo: string)

  /** `productType` is the record's `type` field (a keyword in Dafny). */
  datatype LiquorProduct = LiquorProduct(
    id: string,
    userId: string,
    name: string,
    productType: string,
    brand: string,
    alcoholContent: nat,
    batchNumber: string,
    vintageYear: Option<string>,
    bottleSize: string,
    costPrice: nat,
    retailPrice: nat,
    currentStock: nat,
    expiryDate: Option<string>)

  datatype SupplyChainEvent = SupplyChainEvent(
    id: string,
    liquorProductId: string,
    eventType: string,
    location: string,
    quantity: nat,
    date: nat,
    participantId: string)

  datatype SaleRecord = SaleRecord(
    id: string,
    liquorProductId: string,
    quantity: nat,
    totalPrice: nat,
    saleDate: nat,
    salesStaffId: string,
    customerAge: nat)

  datatype InventoryAdjustment = InventoryAdjustment(
    id: string,
    liquorProductId: string,
    quantityChanged: nat,
    reason: string,
    adjustedBy: string,
    adjustmentDate: nat)

  datatype UserPayload = UserPayload(username: string, role: string, contactInfo: string)

  datatype LiquorProductPayload = LiquorProductPayload(
    name: string,
    userId: string,
    productType: string,
    brand: string,
    alcoholContent: nat,
    batchNumber: string,
    vintageYear: Option<string>,
    bottleSize: string,
    costPrice: nat,
    retailPrice: nat,
    currentStock: nat,
    expiryDate: Option<string>)

  datatype SupplyChainEventPayload = SupplyChainEventPayload(
    liquorProductId: string,
    eventType: string,
    location: string,
    quantity: nat,
    participantId: string)

  datatype SaleRecordPayload = SaleRecordPayload(
    liquorProductId: string,
    quantity: nat,
    salesStaffId: string,
    customerAge: nat)

  datatype InventoryAdjustmentPayload = InventoryAdjustmentPayload(
    liquorProductId: string,
    quantityChanged: nat,
    reason: string,
    adjustedBy: string)

  /** The draft's error tags: `Error` takes the place of `SystemError`. */
  datatype Errors =
    | UserAlreadyExists | UserDoesNotExist | ProductAlreadyExists | ProductDoesNotExist
    | InsufficientStock | InvalidPayload | Unauthorized | AgeRestriction | Error
}
