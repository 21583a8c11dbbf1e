# Liquor supply ledger, modelled in Dafny

This project models the inventory ledger of the liquor supply dapp. The ledger has five keyed stores: users, liquor products, sale records, inventory adjustments and supply-chain events. Every endpoint checks its input, reads a record, computes a new stock level and writes records back. Each returns a tagged `Ok`/`Err` result.

The repository holds two independent versions, and the model keeps them apart:

- **The deployed canister** (`src/index.ts`), in modules `CanisterTypes`, `CanisterRules` and `Canister`.
  - Class `Canister.LiquorCanister` holds the five stores as `map` fields, and each endpoint is a method on it.
  - Every mutating method keeps the object invariant `Valid()`: each record is stored under its own id, and no two usernames are equal once ASCII letters are lower-cased.
  - The pure parts are functions with lemmas: username validation as the regular expression it is, the case-insensitive `find`/`some` scans, pagination and the filter by liquor type.
- **The unwired controller draft** (`src/controllers/*.ts`), in modules `DataType`, `Storage`, `ProductController`, `InventoryController`, `UserController` and `SupplyController`.
  - Class `Storage.Stores` holds the draft's five shared maps.
  - Each TypeScript class of static methods becomes a module of methods that take the stores and modify only the maps they write.
  - The draft's own rules are kept as written: products keyed by name, a legal age of 21, sales priced at `retailPrice`, and record ids taken from the caller.

`KeyedStore` stands in for the `StableBTreeMap` collaborator. Its `values()` lists every record exactly once, in ascending order of the keys. So two listings of the same store are the same sequence, and successive `getAllUsers` pages split one fixed listing between them.

The caller principal, the clock and each freshly generated id are method parameters. For the canister, a generated id is required not to be a key already.

`Scenarios` holds short call sequences on both versions. Each is proved from the operations' contracts alone.

### Behaviour of the code worth knowing

The model follows the code in every case below:

- **`addLiquorProduct` stock.** The canister stores `payload.currentStock + 1` (`src/index.ts:602`). So adding a product with stock 10 and selling 3 leaves 8, not 7 (`Scenarios.SaleAfterAdd`).
- **Sale price.** The canister prices a sale at `quantity * costPrice` (`src/index.ts:802`). The draft uses `retailPrice * quantity` (`src/controllers/ProductController.ts:49`).
- **Legal age.** The canister refuses a sale below age 18. The draft refuses one below 21.
- **Product names.** The canister does not check that product names are unique. The draft refuses a name only when it is already a key, and the comparison is case-sensitive (`Scenarios.RepeatedProductNames`).
- **Inventory adjustment.** The quantity is an unsigned `nat64` and nothing guards against negative stock, so an adjustment can only raise the stock.
- **Roles.** No operation checks the caller's role.
- **Supply-chain events.** Logging an event does not check that the product exists.
- **Draft sale and adjustment keys.** The draft writes the changed product under `product.id`. Its products are keyed by name and carry the caller as id, so a sale leaves the catalogue entry at its old stock (`Scenarios.DraftSaleMissesCatalogueKey`).
- **`updateUser`.** It never validates the contact information, and validates the username only when it changes.

- **String lengths.** `isValidUsername` and `isValidContactInfo` measure JavaScript `length`, which counts UTF-16 code units. A character outside the Basic Multilingual Plane counts twice. The model measures the same way (`CanisterRules.Utf16Length`). So a contact of 51 emoji is refused, because its length is 102.

## Model

| member | source | states |
|---|---|---|
| `KeyedStore.Values` | src/index.ts:471 | `values()` returns one record per key of the store, in ascending key order, so its length is the store's size and the result depends on the store alone |
| `KeyedStore.AscendingUnique` | src/index.ts:471 | two ascending listings of the same keys are equal: the order the store lists records in is unique |
| `KeyedStore.KeyOrderIs` | src/index.ts:471 | any ascending listing of exactly the store's keys is the order `values()` uses |
| `CanisterRules.UsernamePatternIsCharClass` | src/index.ts:345 | the pattern `^[a-zA-Z0-9_-]+$` matches exactly the non-empty strings made only of letters, digits, `_` and `-` |
| `CanisterRules.Utf16Length` | src/index.ts:344 | a string's JavaScript `length` lies between its number of characters and twice that |
| `CanisterRules.Utf16LengthIsLength` | src/index.ts:344 | the `length` equals the number of characters exactly when no character lies outside the Basic Multilingual Plane |
| `CanisterRules.IsValidUsername` | src/index.ts:341-347 | a username is valid iff it has 3 to 20 characters, all from `[A-Za-z0-9_-]`; those characters are ASCII, so its `length` and its character count agree |
| `CanisterRules.IsValidContactInfo` | src/index.ts:354-356 | contact info is valid iff its `length` in UTF-16 code units is 1 to 100. So any contact of 1 to 50 characters passes, one of more than 100 characters never does, and for text inside the Basic Multilingual Plane the bound is 1 to 100 characters |
| `CanisterRules.IsLegalAge` | src/index.ts:363-365 | a customer may buy exactly from age 18 up |
| `CanisterRules.ToLower` | src/index.ts:399 | lower-casing keeps the length and lower-cases each ASCII letter in place |
| `CanisterRules.FindByUsername` | src/index.ts:398-400 | the scan finds a user iff some listed user's username equals the name ignoring case, and what it finds is the first such user in the listing |
| `CanisterRules.OtherHasUsername` | src/index.ts:527-531 | the scan holds iff some listed user with a different id has the same username ignoring case |
| `CanisterRules.PageOf` | src/index.ts:467-487 | page size 0 gives `InvalidPayload`; an empty store gives `UserDoesNotExist`; a start at or past the end gives `InvalidPayload`; otherwise the page is non-empty, holds at most `pageSize` records (`min(pageSize, count - start)`), and its i-th record is record `page*pageSize + i` |
| `CanisterRules.PagesFromRest` | src/index.ts:478-487 | from any page starting inside the records, the remaining pages concatenate to exactly the remaining records |
| `CanisterRules.PagesCoverAll` | src/index.ts:478-487 | for any page size above 0, pages 0, 1, 2, ... reconstruct every record exactly once and in order |
| `CanisterRules.FilterByType` | src/index.ts:658-665 | the filter keeps each product of the requested type as often as it occurs and drops every other product |
| `Canister.ScanIsLookup` | src/index.ts:397-406 | the `find` scan over the listed users finds a match, and the `some` scan for another id holding the name holds, exactly when the user store has such a user |
| `Canister.FindIsFirstByKey` | src/index.ts:397-400 | the `find` scan over the key-ordered listing returns the matching user stored under the smallest key |
| `Canister.UserPagesCoverUsers` | src/index.ts:467-487 | the pages 0, 1, 2, ... that `getAllUsers` returns for an unchanged store hand out every stored user exactly once, in key order |
| `Canister.FilterIsTypeLookup` | src/index.ts:658-670 | the products the type filter selects from the listing are exactly the stored products of that type, and it selects none iff no stored product has that type |
| `Canister.ListAll` | src/index.ts:690-704 | a listing is `ProductDoesNotExist` iff the store is empty; otherwise it holds every stored record once, in key order, and nothing else |
| `Canister.LiquorCanister.constructor` | src/index.ts:294-322 | the five stores start empty and the invariant holds |
| `Canister.LiquorCanister.RegisterUser` | src/index.ts:377-430 | an empty or invalid username, or contact info whose UTF-16 length is outside 1..100, gives `InvalidPayload`; a username already stored ignoring case gives `UserAlreadyExists`; every error leaves the users unchanged; success adds exactly one user under the fresh id, with the payload's fields, the caller as owner, 0 points and `createdAt == lastUpdated`; usernames stay unique |
| `Canister.LiquorCanister.FindUser` | src/index.ts:397-400 | the scan finds a user exactly when some stored user has the name ignoring case; what it finds is such a stored user, and no user stored under a smaller key matches |
| `Canister.LiquorCanister.TakenByOther` | src/index.ts:526-531 | the scan holds exactly when a stored user with a different id has the name ignoring case |
| `Canister.LiquorCanister.GetUser` | src/index.ts:437-453 | returns the stored user iff the id is a key, else `UserDoesNotExist` |
| `Canister.LiquorCanister.GetAllUsers` | src/index.ts:461-497 | returns the page `PageOf` defines over the users listed in key order, the same listing on every call over an unchanged store; every returned user is a stored user |
| `Canister.LiquorCanister.UpdateUser` | src/index.ts:505-555 | a missing id gives `UserDoesNotExist`; a changed username that is invalid gives `InvalidPayload`, and one held by another user ignoring case gives `UserAlreadyExists`; errors leave the users unchanged; success replaces username, role and contact info, stamps `lastUpdated`, keeps id, owner, points and `createdAt`, and changes only that key; usernames stay unique |
| `Canister.LiquorCanister.DeleteUser` | src/index.ts:562-581 | a missing id gives `UserDoesNotExist` with the users unchanged; otherwise exactly that key is removed |
| `Canister.LiquorCanister.AddLiquorProduct` | src/index.ts:588-619 | an empty name gives `InvalidPayload` and stores nothing; otherwise the product is stored under the fresh id with every payload field except `currentStock`, which is one more than the payload's; no name check is made |
| `Canister.LiquorCanister.GetLiquorProduct` | src/index.ts:626-646 | returns the stored product iff the id is a key, else `ProductDoesNotExist` |
| `Canister.LiquorCanister.GetLiquorProductsByType` | src/index.ts:653-684 | `ProductDoesNotExist` iff no stored product has the type; otherwise every listed product has the type and is stored, and every stored product of the type is listed |
| `Canister.LiquorCanister.ListAllProducts` | src/index.ts:690-704 | `ProductDoesNotExist` iff there are no products; otherwise every product once |
| `Canister.LiquorCanister.UpdateLiquorProduct` | src/index.ts:712-741 | a missing id gives `ProductDoesNotExist` with the catalogue unchanged; otherwise the id is kept, every payload field including `currentStock` replaces the old one, and only that key changes |
| `Canister.LiquorCanister.DeleteLiquorProduct` | src/index.ts:748-767 | a missing id gives `ProductDoesNotExist` with the catalogue unchanged; otherwise exactly that key is removed, and sales and adjustments are untouched |
| `Canister.LiquorCanister.SellLiquorProduct` | src/index.ts:774-837 | checks in order: missing product gives `ProductDoesNotExist`, then `quantity > currentStock` gives `InsufficientStock` at any age, then `customerAge < 18` gives `AgeRestriction`; errors change neither products nor sales; success lowers that product's stock by the quantity (new stock + quantity = old stock, so it stays ≥ 0), changes no other product, and adds exactly one sale under the fresh id with `costPrice` from the product and `totalPrice = quantity * costPrice` |
| `Canister.LiquorCanister.ListAllSales` | src/index.ts:843-857 | `ProductDoesNotExist` iff there are no sales; otherwise every sale once |
| `Canister.LiquorCanister.AdjustInventory` | src/index.ts:864-900 | a missing product gives `ProductDoesNotExist` with nothing written; otherwise the stock becomes old + `quantityChanged` (never lower), no other product changes, and exactly one adjustment is added under the fresh id, dated now |
| `Canister.LiquorCanister.ListAllInventoryAdjustments` | src/index.ts:906-926 | `ProductDoesNotExist` iff there are no adjustments; otherwise every adjustment once |
| `Canister.LiquorCanister.LogSupplyChainEvent` | src/index.ts:934-960 | always succeeds and adds exactly one event under the fresh id, with the payload's fields and the clock's time; no other store changes |
| `Canister.LiquorCanister.ListSupplyChainEvents` | src/index.ts:966-986 | `ProductDoesNotExist` iff there are no events; otherwise every event once |
| `Canister.LiquorCanister.GetSupplyChainEvent` | src/index.ts:993-1013 | returns the stored event iff the id is a key, else `ProductDoesNotExist` |
| `Storage.Stores.constructor` | src/storage/storage.ts:7-11 | the draft's five stores start empty |
| `ProductController.AddLiquorProduct` | src/controllers/ProductController.ts:8-29 | an empty name gives `InvalidPayload`; a name already used as a key (exact match) gives `ProductAlreadyExists`; both leave the catalogue unchanged; success inserts under key `name` a product whose id is the caller string and whose other fields, stock included, are the payload's |
| `ProductController.SellLiquorProduct` | src/controllers/ProductController.ts:31-60 | checks in order: missing key gives `ProductDoesNotExist`, then `currentStock < quantity` gives `InsufficientStock`, then `customerAge < 21` gives `AgeRestriction`; no store changes on error; success writes the product, its stock lowered by the quantity (≥ 0), under key `product.id`, so the entry under the lookup key stays as it was when the two differ; it writes the sale, priced `retailPrice * quantity`, under the caller's id, replacing any earlier sale by that caller |
| `InventoryController.AdjustInventory` | src/controllers/InventoryController.ts:8-29 | a missing key gives `ProductDoesNotExist` with nothing written; otherwise the product, its stock raised by `quantityChanged`, is written under key `product.id`, and the adjustment, dated now with the payload's other fields, under the caller's id, replacing any earlier adjustment by that caller |
| `UserController.RegisterUser` | src/controllers/UserController.ts:8-31 | an empty username gives `InvalidPayload`; a username already used as a key (exact match) gives `UserAlreadyExists`; both leave the users unchanged; success adds only key `username`, holding the caller as id, 0 points, and the payload's role and contact info; every other user is unchanged |
| `SupplyController.LogSupplyChainEvent` | src/controllers/SupplyController.ts:8-21 | always succeeds without looking the product up; stores under the caller's id an event dated now with the payload's other fields, replacing any earlier event by that caller; only the events store changes |
| `Scenarios.SaleAfterAdd` | src/index.ts:602 | adding stock 10 and selling 3 leaves 8; the sale is priced at cost (120), not at retail (150) |
| `Scenarios.RefusedSales` | src/index.ts:787-799 | selling 3 from stock 2 to a 17-year-old gives `InsufficientStock`, and selling 1 gives `AgeRestriction`; the stock stays 2 and no sale is recorded |
| `Scenarios.PagingTwoUsers` | src/index.ts:467-487 | with users "alice" (id u1) and "bob" (id u2), pages of size 1 give alice on page 0 and bob on page 1, and page 2 is refused with `InvalidPayload` |
| `Scenarios.CaseInsensitiveUsernames` | src/index.ts:398-406 | once "alice" is registered, "Alice" is refused with `UserAlreadyExists` |
| `Scenarios.RepeatedProductNames` | src/controllers/ProductController.ts:13-16 | the canister stores two products named "Vodka"; the draft refuses a second "Vodka" but accepts "vodka" |
| `Scenarios.DraftSaleMissesCatalogueKey` | src/controllers/ProductController.ts:53-55 | in the draft, after selling 3 of 10 the entry under the product's name still shows 10, and the entry under the caller's id shows 7 |
| `Scenarios.SameCallerEvents` | src/controllers/SupplyController.ts:10-16 | two events logged by one caller leave a single event, the later one |

## Left out

- Azle and Internet Computer plumbing (`Canister`, `query`/`update`, Candid encodings) is not modelled. `ic.caller()`, `ic.time()`, `new Date().toISOString()` and `uuidv4()` become parameters: a principal string, a `nat` or opaque string time, and a fresh id.
- The random principal of `src/utils/generateId.ts` is not part of this model. It is random, and no core operation calls it.
- The `try`/`catch` wrappers that turn a store or runtime fault into `SystemError` (the canister) or `Error` (the draft) are not modelled. No modelled operation produces those tags.
- The human-readable text inside `Ok` and `Err` is not modelled. Endpoints that answer `Ok(text)` return `Ok(())`.
- `nat64` is modelled as unbounded `nat`. JavaScript bigint arithmetic does not wrap, and an overflow would only surface as a serialisation fault.
- The draft's principal forms `JSON.stringify(ic.caller())` and `ic.caller().toText()` are passed in as strings.
- Both versions change a `product` object in place (`+=`, `-=`). That object is a deserialised copy returned by the store, so the model updates a value and writes it back, and no aliasing is modelled.
- The canister spreads the adjustment payload, including `adjustedBy`, into a record type without that field. The model keeps only the declared fields.
- `KeyedStore.KeyLess`: the store's key order is modelled as lexicographic order on characters. The B-tree compares the keys' stored byte encodings, which the model does not reproduce. The listing is still one fixed ascending order, so determinism and page coverage hold whichever total order is used.
- `Canister.LiquorCanister.GetAllUsers`: the conversion of `page * pageSize` to a JavaScript `Number` is not modelled.
- `CanisterRules.ToLower`: only ASCII letters are lower-cased, whereas JavaScript's `toLowerCase` folds all of Unicode.
- Dafny strings hold Unicode scalar values, so lone UTF-16 surrogates, which a JavaScript string can hold, are not modelled.
- `src/dataType/dataType.ts` and `src/storage/storage.ts` hold no behaviour. They are used only as the source of the draft's record shapes and stores.
