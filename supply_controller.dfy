/** `SupplyController` of the controller draft
    (src/controllers/SupplyController.ts). `callerJson` stands for
    `JSON.stringify(ic.caller())` and `now` for `ic.time()`. */
module SupplyController {
  import opened Common
  import opened DataType
  import opened Storage

  /** `{ id, ...payload, date }`. */
  function EventWithId(id: string, p: SupplyChainEventPayload, date: nat): SupplyChainEvent {
    SupplyChainEvent(id, p.liquorProductId, p.eventType, p.location, p.quantity, date, p.participantId)
  }

  /** `logSupplyChainEvent`: always succeeds, does not look the product up,
      and stores the event under the caller's id, replacing any earlier
      event by the same caller. */
  method LogSupplyChainEvent(st: Stores, payload: SupplyChainEventPayload, callerJson: string, now: nat)
    returns (r: Result<(), Errors>)
    modifies st`supplyChainEventsStorage
    ensures r == Ok(())
    ensures st.supplyChainEventsStorage == old(st.supplyChainEventsStorage)[callerJson := EventWithId(callerJson, payload, now)]
  {
    var event := EventWithId(callerJson, payload, now);
    st.supplyChainEventsStorage := st.supplyChainEventsStorage[event.id := event];
    r := Ok(());
  }
}
