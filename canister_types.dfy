/** The record, variant and payload types of the deployed canister
    (src/index.ts). Candid `nat64` becomes `nat`, `text` becomes `string`,
    and `Opt(text)` becomes `Option<string>`. */
module CanisterTypes {
  import opened Common

  datatype UserRole = Admin | Manager | Staff | Customer

  datatype User = User(
    id: string,
    owner: Principal,
    username: string,
    role: UserRole,
    points: nat,
    contactInfo: string,
    createdAt: string,
    lastUpdated: string)

  datatype LiquorType = Whiskey | Vodka | Rum | Gin | Tequila | Brandy | Liqueur | Other

  datatype LiquorBrand =
    | Chrome | Best | County | JohnnieWalker | JackDaniels | Smirnoff
    | Bacardi | Tanqueray | Patron | Hennessy | Other

  datatype LiquorProduct = LiquorProduct(
    id: string,
    name: string,
    liquorType: LiquorType,
    brand: LiquorBrand,
    alcoholContent: nat,
    batchNumber: string,
    vintageYear: Option<string>,
    bottleSize: string,
    costPrice: nat,
    retailPrice: nat,
    currentStock: nat,
    expiryDate: Option<string>)

  datatype SupplyChainEventType = Received | Sold | Adjusted | Damaged | Expired

  /** `date` is the platform clock (`ic.time()`, nanoseconds). */
  datatype SupplyChainEvent = SupplyChainEvent(
    id: string,
    liquorProductId: string,
    eventType: SupplyChainEventType,
    location: string,
    quantity: nat,
    date: nat,
    participantId: string)

  datatype SaleRecord = SaleRecord(
    id: string,
    liquorProductId: string,
    salesStaffId: string,
    quantity: nat,
    costPrice: nat,
    totalPrice: nat,
    buyerId: string,
    customerAge: nat,
    saleDate: string)

  datatype InventoryAdjustment = InventoryAdjustment(
    id: string,
    liquorProductId: string,
    staffId: string,
    quantityChanged: nat,
    reason: string,
    adjustmentDate: string)

  datatype UserPayload = UserPayload(username: string, role: UserRole, contactInfo: string)

  datatype GetAllUsersPayload = GetAllUsersPayload(page: nat, pageSize: nat)

  datatype LiquorProductPayload = LiquorProductPayload(
    name: string,
    liquorType: LiquorType,
    brand: LiquorBrand,
    alcoholContent: nat,
    batchNumber: string,
    vintageYear: Option<string>,
    bottleSize: string,
    costPrice: nat,
    retailPrice: nat,
    currentStock: nat,
    expiryDate: Option<string>)

  datatype SupplyChainEventPayload = SupplyChainEventPayload(
    liquorProductId: string,
    eventType: SupplyChainEventType,
    location: string,
    quantity: nat,
    participantId: string)

  datatype SaleRecordPayload = SaleRecordPayload(
    liquorProductId: string,
    salesStaffId: string,
    quantity: nat,
    buyerId: string,
    customerAge: nat)

  datatype InventoryAdjustmentPayload = InventoryAdjustmentPayload(
    liquorProductId: string,
    staffId: string,
    quantityChanged: nat,
    reason: string,
    adjustedBy: string)

  /** The error tags; the human-readable text each carries is not modelled. */
  datatype Errors =
    | UserAlreadyExists | UserDoesNotExist | ProductAlreadyExists | ProductDoesNotExist
    | InsufficientStock | InvalidPayload | Unauthorized | AgeRestriction | SystemError

  /** `{ id, ...payload }`: a product whose fields are the payload's. */
  function ProductWithId(id: string, p: LiquorProductPayload): LiquorProduct {
    LiquorProduct(id, p.name, p.liquorType, p.brand, p.alcoholContent, p.batchNumber,
                  p.vintageYear, p.bottleSize, p.costPrice, p.retailPrice, p.currentStock,
                  p.expiryDate)
  }

  /** `{ id, ...payload, date }` for a supply-chain event. */
  function EventWithId(id: string, p: SupplyChainEventPayload, date: nat): SupplyChainEvent {
    SupplyChainEvent(id, p.liquorProductId, p.eventType, p.location, p.quantity, date, p.participantId)
  }

  /** `{ id, ...payload, adjustmentDate }`, keeping the fields the record type declares
      (the payload's `adjustedBy` has no place in it). */
  function AdjustmentWithId(id: string, p: InventoryAdjustmentPayload, date: string): InventoryAdjustment {
    InventoryAdjustment(id, p.liquorProductId, p.staffId, p.quantityChanged, p.reason, date)
  }
}
