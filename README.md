# Pizza order flow: a verified model

This project models the order page of a small pizza restaurant's web client
and the browser-storage session behind it.

A customer builds a cart from the menu: pizzas customized with a size and
toppings, plus flat-priced sides and drinks. They can change quantities, pick
pickup or delivery, write notes, and check out. The page derives a subtotal,
an 8% tax, a total and an item count from the cart. It keeps the cart in local
storage so that a reload within two hours brings it back.

The model is split into modules that follow the program's own structure.

| module | what it holds |
|---|---|
| `Catalog` | The menu, sizes and toppings as constants, and lookup by id (`SIZES.find`, `TOPPINGS.find`). |
| `PizzaKey` | `makePizzaKey`. JavaScript's default `sort` is modelled as an insertion sort under the character order. Proofs: every sorted permutation is the same sequence, the key ignores topping order, and equal keys mean the same pizza. |
| `Cart` | The tagged line items and the four pure updaters: `upsertPizza`, `addOther`, `decLine`, `incLine`. Each comes with its effect on the item count and on the cart invariant. |
| `Pricing` | Subtotal, tax, total and the customizer's unit price. Each add operation's effect on the subtotal. A worked example: margherita large with basil ×2 plus sparkling water = 46.00 + 3.68 = 49.68. |
| `Customizer` | The pizza customizer. It is a `class` whose size and topping list are updated in place; its topping toggle is a filter or append. |
| `Summary` | The cart summary lines: title, subtitle, quantity. |
| `Session` | `loadOrderSession` / `saveOrderSession` / `clearOrderSession`. The storage is a `class` with one slot. Proofs: the guard chain of the loader, and the save-then-load round trip with its two-hour limit. |
| `OrderPage` | The page component as a `class`. Its fields are the React state. Each handler is a method that updates that state. The save effect runs after every cart change, after a mode or notes change that alters the value, and after restore. `HandleCheckout` changes only the status, which the save effect does not watch, so it saves nothing. |

The clock reading (`Date.now()`) is a parameter `now` of every operation that
reads it. A storage failure that the source swallows with `try/catch` is
modelled as a nondeterministic `failed` result of the storage methods. On
failure the slot is unchanged. The page methods pass that result on
(`saveFailed`, and for a clear also `clearFailed`), so their contracts can say
exactly what the slot holds when the write succeeds.

The code behaves differently from what the Clear button and the one-time
restore suggest, in two places. The model follows the code.

- **Restore re-saves.** The save effect lists `restored` among its
  dependencies. So it runs right after the mount effect sets `restored`,
  and it re-saves the restored session with a fresh `updatedAt`.
  `OrderPage.OrderPage.Restore` ensures that unless that save fails, the
  slot holds the snapshot of the state at `now`.
- **Clear re-saves.** `clearCart` deletes the stored session. But it also
  empties the cart and the notes, and that re-runs the save effect. So
  after a clear, the slot holds an empty session (mode kept, no items, no
  notes), not nothing. `OrderPage.OrderPage.ClearCart` ensures exactly that
  once the session is restored and the save succeeds. The slot is empty only
  when the save is skipped or fails.

## Model

| member | source | states |
|---|---|---|
| Catalog.FindSize | client/src/pages/order.tsx:276-277 | A size is found iff one with that id exists. The result has that id and sits at a position before which no entry has that id, so it is the first match. |
| Catalog.FindTopping | client/src/pages/order.tsx:279 | A topping is found iff one with that id exists. The result has that id and sits at a position before which no entry has that id, so it is the first match. |
| Catalog.PizzaIdsAreKeySafe | client/src/pages/order.tsx:54-85 | No signature-pizza id contains the key separator `\|`. |
| Catalog.SizeIdsAreKeySafe | client/src/pages/order.tsx:151-155 | No size id contains the key separator `\|`. |
| Catalog.ToppingIdsAreDistinct | client/src/pages/order.tsx:157-164 | No two toppings share an id. |
| Catalog.ToppingIdIsKeySafe | client/src/pages/order.tsx:157-164 | Each topping id is non-empty and contains neither `,` nor `\|`. |
| Catalog.ToppingIdsAreKeySafe | client/src/pages/order.tsx:157-164 | Every topping in the catalog has a non-empty id free of `,` and `\|`. |
| Catalog.CatalogPriceBounds | client/src/pages/order.tsx:151-164 | Size price deltas lie between −2 and 4; topping prices between 0 and 3. |
| PizzaKey.StrLeTotal | client/src/pages/order.tsx:171 | The string order used by the default sort is total. |
| PizzaKey.StrLeAntisymmetric | client/src/pages/order.tsx:171 | The string order is antisymmetric: strings ordered both ways are equal. |
| PizzaKey.StrLeTransitive | client/src/pages/order.tsx:171 | The string order is transitive. |
| PizzaKey.StrLeReflexive | client/src/pages/order.tsx:171 | The string order is reflexive. |
| PizzaKey.InsertSortedPermutation | client/src/pages/order.tsx:171 | Inserting into a sorted list keeps it sorted and adds exactly that element. |
| PizzaKey.ConsSorted | client/src/pages/order.tsx:171 | A head at most every element of a sorted tail gives a sorted list. |
| PizzaKey.InsertBehindHead | client/src/pages/order.tsx:171 | When the new element goes behind the head, the head stays at most every element after it. |
| PizzaKey.SortSortedPermutation | client/src/pages/order.tsx:171 | `[...ids].sort()` is sorted and a permutation of its input. |
| PizzaKey.Sort | client/src/pages/order.tsx:171 | Sorting keeps the number of ids; SortSortedPermutation states its order and contents. |
| PizzaKey.SortedHeadIsLeast | client/src/pages/order.tsx:171 | The first element of a sorted list is at most every element. |
| PizzaKey.MultisetCancel | client/src/pages/order.tsx:171 | Removing the same first element from two equal multisets leaves equal multisets. |
| PizzaKey.SortedUnique | client/src/pages/order.tsx:171 | Two sorted permutations of the same elements are the same sequence. So the chosen sort algorithm does not matter. |
| PizzaKey.SortIsUnique | client/src/pages/order.tsx:171 | Any sorted permutation of the ids equals the modelled sort's result. |
| PizzaKey.Join | client/src/pages/order.tsx:171 | `join` of one element is that element; of none, the empty string. |
| PizzaKey.PizzaKeyIgnoresToppingOrder | client/src/pages/order.tsx:170-173 | Same base, same size and the same topping multiset give the same key, whatever the click order. |
| PizzaKey.SplitAtSeparator | client/src/pages/order.tsx:172 | A prefix free of the separator is determined by the text it starts. |
| PizzaKey.JoinInjective | client/src/pages/order.tsx:171 | For non-empty comma-free ids, equal comma joins mean equal lists. |
| PizzaKey.JoinHasHead | client/src/pages/order.tsx:171 | A join of a non-empty list of non-empty ids is not empty. |
| PizzaKey.JoinSingleHasNoComma | client/src/pages/order.tsx:171 | One comma-free id never joins to the same text as two or more ids. |
| PizzaKey.MakePizzaKey | client/src/pages/order.tsx:170-173 | The key starts with the base id and a bar, followed by the size id and a bar, with the toppings after. |
| PizzaKey.KeyParts | client/src/pages/order.tsx:172 | Helper (unfolds the definition, used by the key proofs): the key is base, bar, size, bar, sorted toppings. |
| PizzaKey.SortKeepsKeySafe | client/src/pages/order.tsx:171 | Sorting keeps the ids non-empty and comma-free. |
| PizzaKey.PizzaKeyDistinguishes | client/src/pages/order.tsx:170-173 | With separator-free ids, equal keys mean same base, same size and same topping multiset (the converse of PizzaKeyIgnoresToppingOrder). |
| Cart.TotalCountAppend | client/src/pages/order.tsx:290-295 | The item count of a concatenation is the sum of the counts. |
| Cart.TotalCountAtLeastLines | client/src/pages/order.tsx:290-295 | With positive quantities, the item count is at least the number of lines. |
| Cart.TotalCountCons | client/src/pages/order.tsx:290-295 | Prepending a line adds its quantity to the count. |
| Cart.TotalCountUpdate | client/src/pages/order.tsx:290-295 | Replacing one line changes the count by the quantity difference. |
| Cart.FindPizzaFrom | client/src/pages/order.tsx:300-304 | The first pizza line with the key at or after k, or -1 iff there is none. |
| Cart.FindPizza | client/src/pages/order.tsx:300-304 | `findIndex` on the key: the first matching pizza line, or -1 iff there is none. |
| Cart.UpsertPizza | client/src/pages/order.tsx:297-321 | The cart grows by at most one line, and afterwards holds a pizza line with the new pizza's key. |
| Cart.UpsertPizzaMerges | client/src/pages/order.tsx:305-315 | When a pizza line with the key exists, the first one gains one unit. Length and every other line are unchanged. |
| Cart.UpsertPizzaAppends | client/src/pages/order.tsx:316-319 | When no line has the key, one pizza line is appended: id = key, quantity 1, base and customization as given. |
| Cart.UpsertPizzaIgnoresToppingOrder | client/src/pages/order.tsx:297-321 | Adding the same pizza with toppings in another order merges into the existing line, which goes to quantity 2. |
| Cart.UpsertPizzaNewChoiceAppends | client/src/pages/order.tsx:297-321 | With separator-free ids, a pizza differing from every cart pizza in base, size or topping set is appended as a new line. |
| Cart.CatalogNewChoiceAppends | client/src/pages/order.tsx:297-321 | On a cart of catalog pizzas, a new catalog pizza (signature base, catalog size, catalog toppings) that differs from each cart pizza in base, size or topping set is appended as a new line. |
| Cart.UpsertPizzaPreservesInvariant | client/src/pages/order.tsx:297-321 | Keeps the cart invariant: quantities positive, ids equal to keys, no two lines that would have merged. |
| Cart.UpsertPizzaCount | client/src/pages/order.tsx:297-321 | The item count rises by exactly one. |
| Cart.FindOtherFrom | client/src/pages/order.tsx:325-327 | The first `other` line for the item at or after k, or -1 iff there is none. |
| Cart.FindOther | client/src/pages/order.tsx:325-327 | `findIndex` on the item id: the first match, or -1 iff there is none. |
| Cart.AddOther | client/src/pages/order.tsx:323-341 | The cart grows by at most one line, and afterwards holds an `other` line for the item. |
| Cart.AddOtherMerges | client/src/pages/order.tsx:328-337 | When a line for the item exists, the first one gains one unit and nothing else changes. |
| Cart.AddOtherAppends | client/src/pages/order.tsx:339 | When none exists, one line is appended: id = item id, quantity 1. |
| Cart.AddOtherPreservesInvariant | client/src/pages/order.tsx:323-341 | Keeps the cart invariant. |
| Cart.AddOtherCount | client/src/pages/order.tsx:323-341 | The item count rises by exactly one. |
| Cart.DecrementMatching | client/src/pages/order.tsx:346-360 | The map step keeps the length. A line with the id loses one unit, floored at 0; every other line is unchanged. |
| Cart.KeepPositive | client/src/pages/order.tsx:361 | The filter leaves only positive quantities and only lines of its input. It never grows the cart and changes nothing in an all-positive cart. |
| Cart.DecLine | client/src/pages/order.tsx:343-363 | After `decLine` every quantity is positive, and the cart never grows. |
| Cart.IncLine | client/src/pages/order.tsx:365-377 | Same length and ids. A line with the id becomes the same line with one more unit; every other line is unchanged. |
| Cart.KeepPositiveAppend | client/src/pages/order.tsx:361 | The filter distributes over concatenation. |
| Cart.DecrementMatchingAppend | client/src/pages/order.tsx:346-360 | The map distributes over concatenation. |
| Cart.DecLineAppend | client/src/pages/order.tsx:343-363 | `decLine` distributes over concatenation. |
| Cart.DecLineNoMatch | client/src/pages/order.tsx:343-363 | On an all-positive cart, an id no line has changes nothing. |
| Cart.DecLineAtOneRemoves | client/src/pages/order.tsx:343-363 | A line at quantity 1 is removed; the others keep their order. |
| Cart.DecLineAboveOne | client/src/pages/order.tsx:343-363 | A line above quantity 1 loses one unit in place; nothing else changes. |
| Cart.DecLineKeepsOthers | client/src/pages/order.tsx:343-363 | Lines with other ids survive unchanged and in order. |
| Cart.WithoutIdAppend | client/src/pages/order.tsx:343-363 | Dropping the lines with one id distributes over concatenation. |
| Cart.DecLineSingle | client/src/pages/order.tsx:343-363 | On one line, `decLine` keeps the decremented line iff its quantity stays positive. |
| Cart.DecLineSingleCount | client/src/pages/order.tsx:343-363 | On one positive line, the count falls by one if the id matches and is unchanged otherwise. |
| Cart.DecLineCount | client/src/pages/order.tsx:343-363 | The count falls by the number of lines carrying the id. |
| Cart.IncLineCount | client/src/pages/order.tsx:365-377 | The count rises by the number of lines carrying the id. |
| Cart.IncThenDec | client/src/pages/order.tsx:343-377 | On an all-positive cart, `decLine` undoes `incLine`. |
| Cart.DecLinePreservesInvariant | client/src/pages/order.tsx:343-363 | Keeps the cart invariant. |
| Cart.HeadClashesWithNoLater | client/src/pages/order.tsx:300-304 | In a cart without mergeable pairs, the first line clashes with no later line. |
| Cart.KeepPositiveKeeps | client/src/pages/order.tsx:361 | The filter keeps ids equal to keys and keeps the cart free of mergeable pairs. |
| Cart.ConsKeeps | client/src/pages/order.tsx:361 | Prepending a line that clashes with nothing keeps those invariant parts. |
| Cart.ConsNoClash | client/src/pages/order.tsx:361 | Prepending a line that clashes with no line of a clash-free cart keeps it clash-free. |
| Cart.ConsWellKeyed | client/src/pages/order.tsx:361 | Prepending a line whose id is its key keeps every id equal to its key. |
| Cart.TailKeeps | client/src/pages/order.tsx:361 | Dropping the first line keeps ids equal to keys and the cart clash-free. |
| Cart.KeepPositiveCons | client/src/pages/order.tsx:361 | Helper (unfolds the definition, used by the decrement proofs): the filter keeps the first line exactly when its quantity is positive. |
| Cart.IncLinePreservesInvariant | client/src/pages/order.tsx:365-377 | Keeps the cart invariant. |
| Pricing.SizeDelta | client/src/pages/order.tsx:276-277 | The size's price delta, or 0 for an unknown size id; always between −2 and 4. |
| Pricing.ToppingPrice | client/src/pages/order.tsx:279-280 | The topping's price, or 0 for an unknown topping id; always between 0 and 3. |
| Pricing.ToppingsTotalAppend | client/src/pages/order.tsx:278-281 | The toppings total is additive over concatenation. |
| Pricing.ToppingsTotalPermutation | client/src/pages/order.tsx:278-281 | The toppings total depends only on the multiset of ids. |
| Pricing.ToppingsTotalNonNegative | client/src/pages/order.tsx:278-281 | Toppings never lower a pizza's price. |
| Pricing.PizzaUnitPriceAtLeast | client/src/pages/order.tsx:276-282 | A pizza's unit price is at least its base price minus the small size's 2. |
| Pricing.Tax | client/src/pages/order.tsx:287 | The tax lies between 0 and the subtotal: never negative for a non-negative subtotal, never larger than it. |
| Pricing.Total | client/src/pages/order.tsx:287-288 | Total = subtotal × 1.08, and total − subtotal is the tax. |
| Pricing.SubtotalAppend | client/src/pages/order.tsx:271-285 | The subtotal is additive over concatenation. |
| Pricing.BumpedLineTotal | client/src/pages/order.tsx:271-285 | One more unit adds the unit price to a line's total. |
| Pricing.BumpedKeepsUnitPrice | client/src/pages/order.tsx:271-285 | One more unit raises the quantity by one and keeps the unit price. |
| Pricing.SubtotalSingle | client/src/pages/order.tsx:271-285 | The subtotal of one line is its line total. |
| Pricing.SubtotalUpdate | client/src/pages/order.tsx:271-285 | Replacing one line changes the subtotal by the difference of the line totals. |
| Pricing.UpsertPizzaSubtotal | client/src/pages/order.tsx:271-321 | Adding a pizza raises the subtotal by one unit price: the merged line's when merging, the new pizza's otherwise. |
| Pricing.AddOtherSubtotal | client/src/pages/order.tsx:271-285 | Adding an item raises the subtotal by the price of the matched line's item, or by the item's own price when appending. |
| Pricing.MergedPizzasCostTheSame | client/src/pages/order.tsx:170-173 | Pizzas that share a key because they differ only in topping order also share a unit price. |
| Pricing.CustomizerUnitPrice | client/src/pages/order.tsx:872-879 | The customizer's displayed price equals the price the cart charges for the line it creates. |
| Pricing.ExampleKey | client/src/pages/order.tsx:170-173 | A large pizza with basil is keyed `<base>\|lg\|basil`. |
| Pricing.LargeSizeDelta | client/src/pages/order.tsx:151-155 | The large size adds 4.00. |
| Pricing.BasilPrice | client/src/pages/order.tsx:157-164 | Basil costs 1.00. |
| Pricing.ExampleFirstPizza | client/src/pages/order.tsx:316-319 | The first large Margherita with basil lands on a new line of quantity 1 keyed `margherita\|lg\|basil`. |
| Pricing.ExampleSecondPizza | client/src/pages/order.tsx:305-315 | The second one merges into that line, which goes to quantity 2. |
| Pricing.ExamplePizzaPrice | client/src/pages/order.tsx:54-113 | Margherita large with basil costs 21.00. |
| Pricing.ExampleLines | client/src/pages/order.tsx:297-341 | Adding that pizza twice and one sparkling water gives two lines with quantities 2 and 1. |
| Pricing.WorkedExample | client/src/pages/order.tsx:271-288 | That cart has subtotal 46.00, tax 3.68, total 49.68. |
| Customizer.Without | client/src/pages/order.tsx:938 | The filter drops exactly the toggled id and keeps every other id. |
| Customizer.Toggle | client/src/pages/order.tsx:936-939 | The id is in the result iff it was not in the input; other ids are unaffected. |
| Customizer.WithoutMultiset | client/src/pages/order.tsx:938 | On a duplicate-free list, the filter removes exactly one occurrence and stays duplicate-free. |
| Customizer.ToggleKeepsNoDup | client/src/pages/order.tsx:936-939 | Toggling never creates a duplicate topping. |
| Customizer.ToggleTwice | client/src/pages/order.tsx:936-939 | Toggling twice restores the same multiset, and the same list if the id was absent. |
| Customizer.WithoutAppend | client/src/pages/order.tsx:938 | Filtering out an id just appended gives back the list. |
| Customizer.ToggleTwiceSameKeyAndPrice | client/src/pages/order.tsx:936-939 | Toggling twice gives the same key and the same price. |
| Customizer.PizzaCustomizer.constructor | client/src/pages/order.tsx:869-870 | A fresh customizer is medium with no toppings. |
| Customizer.PizzaCustomizer.UnitPrice | client/src/pages/order.tsx:872-879 | The displayed price is what the cart will charge for the current choice. |
| Customizer.PizzaCustomizer.SelectSize | client/src/pages/order.tsx:906 | Sets the size; toppings unchanged. |
| Customizer.PizzaCustomizer.ToggleTopping | client/src/pages/order.tsx:936-939 | The toggled id's presence flips. The size is unchanged and the list stays duplicate-free. |
| Customizer.PizzaCustomizer.Reset | client/src/pages/order.tsx:980-983 | Back to medium with no toppings. |
| Summary.SizeName | client/src/pages/order.tsx:403 | A known size id shows that size's name; an unknown one shows "Medium". |
| Summary.ToppingNames | client/src/pages/order.tsx:404-407 | Only non-empty names of catalog toppings are shown, never more than the ids. |
| Summary.NameOf | client/src/pages/order.tsx:405-406 | One id contributes at most one name. That name is the id's own catalog name and is non-empty, and an id with a non-empty catalog name contributes exactly that name. |
| Summary.ShownNameIsChosen | client/src/pages/order.tsx:404-407 | Every name shown is the catalog name of one of the chosen ids. |
| Summary.ChosenNameIsShown | client/src/pages/order.tsx:404-407 | Every chosen id that the catalog knows under a non-empty name shows that name. |
| Summary.ToppingNamesAppend | client/src/pages/order.tsx:404-407 | Names follow the click order: the names of `a + b` are those of `a` followed by those of `b`. |
| Summary.Subtitle | client/src/pages/order.tsx:410 | The size name alone when no topping name is shown, otherwise size, " • ", and the comma-separated names. |
| Summary.JoinEmpty | client/src/pages/order.tsx:407-410 | A join of non-empty names is empty iff there are none. This decides between the two subtitle forms. |
| Summary.SummaryLines | client/src/pages/order.tsx:393-415 | One summary line per cart line, same id and quantity. Other lines: item name, empty subtitle. Pizza lines: base name, and the subtitle of the line's own customization, which is never empty. |
| Session.Inspect | client/src/lib/orderSession.ts:49-70 | A restored session has version 1 and is not expired. Eviction happens only for a parsed record. |
| Session.LoadAbsentOrEmpty | client/src/lib/orderSession.ts:51-53 | A missing, empty or unparsable slot loads nothing and is kept. |
| Session.LoadBadVersionOrTimestampKeeps | client/src/lib/orderSession.ts:54-55 | A wrong version or a non-numeric timestamp loads nothing and is kept. |
| Session.LoadExpiredEvicts | client/src/lib/orderSession.ts:57-60 | A record older than two hours is deleted, whatever its other fields hold. |
| Session.LoadAtTtlBoundary | client/src/lib/orderSession.ts:57 | A session exactly two hours old still loads. |
| Session.LoadMalformedKeeps | client/src/lib/orderSession.ts:62-64 | A fresh record with a non-array cart or a non-string mode or notes loads nothing and is kept. |
| Session.LoadAcceptsAnyMode | client/src/lib/orderSession.ts:63 | Any string is accepted as the mode. |
| Session.LoadRestoresExactlySavedRecords | client/src/lib/orderSession.ts:49-70 | A load restores session s iff the slot holds s's record, s has version 1, and s is not expired. |
| Session.SaveThenLoad | client/src/lib/orderSession.ts:72-84 | What was saved at t loads back unchanged at t2 iff t2 − t ≤ two hours. Otherwise it is evicted. |
| Session.EncodeInjective | client/src/lib/orderSession.ts:72-80 | Different sessions are written as different records. |
| Session.LocalStorage.constructor | client/src/lib/orderSession.ts:42 | The slot starts as given. |
| Session.LocalStorage.Load | client/src/lib/orderSession.ts:49-70 | Returns the inspected session and deletes the slot only on eviction. A storage failure returns nothing and changes nothing. |
| Session.LocalStorage.Save | client/src/lib/orderSession.ts:72-84 | Stores the stamped record, or changes nothing on failure. |
| Session.LocalStorage.Clear | client/src/lib/orderSession.ts:86-92 | Empties the slot, or changes nothing on failure. |
| OrderPage.ModeName | client/src/pages/order.tsx:115 | The mode string is "pickup" or "delivery", and "pickup" exactly for pickup. |
| OrderPage.TrimStartDropsLeadingSpace | client/src/pages/order.tsx:263 | Trimming the front leaves a suffix, and everything dropped is white space. |
| OrderPage.TrimEndDropsTrailingSpace | client/src/pages/order.tsx:263 | Trimming the end leaves a prefix that does not end in white space, and everything dropped is white space. |
| OrderPage.TrimKeepsMiddle | client/src/pages/order.tsx:263 | `trim()` keeps the contiguous slice after the leading white space, and only white space lies before or after it. |
| OrderPage.TrimEndsNonSpace | client/src/pages/order.tsx:263 | What `trim()` keeps neither starts nor ends with white space. |
| OrderPage.TrimStartEmptyIffBlank | client/src/pages/order.tsx:263 | Trimming the front empties a string iff it is all whitespace, and otherwise leaves a non-space first character. |
| OrderPage.TrimEndKeepsNonSpaceHead | client/src/pages/order.tsx:263 | Trimming the end keeps a non-space first character. |
| OrderPage.TrimEmptyIffBlank | client/src/pages/order.tsx:263 | `trim()` is empty iff the notes are all whitespace. |
| OrderPage.NotesToSave | client/src/pages/order.tsx:263-268 | An empty cart with blank notes saves "" for the notes; otherwise the notes are saved as typed. |
| OrderPage.OrderPage.constructor | client/src/pages/order.tsx:236-243 | The initial state: pickup, empty cart and notes, idle, not yet restored. |
| OrderPage.OrderPage.SaveEffect | client/src/pages/order.tsx:260-269 | Before restore the slot is unchanged. After restore a successful save leaves the snapshot of the current state at `now` in the slot (empty notes for an empty cart with blank notes). A failed save leaves it unchanged. |
| OrderPage.OrderPage.Restore | client/src/pages/order.tsx:247-269 | Keeps the state unless the slot holds a restorable session. When the read does not fail, a restorable session's mode, cart and notes are adopted. Then `restored` is set, and unless the save fails the slot holds the snapshot of the resulting state at `now`. |
| OrderPage.OrderPage.SetMode | client/src/pages/order.tsx:537-549 | Sets the mode. Setting the same mode saves nothing. A changed mode after restore is saved as the snapshot at `now` unless the save fails. |
| OrderPage.OrderPage.SetNotes | client/src/pages/order.tsx:755 | Sets the notes. The same text saves nothing. Changed notes after restore are saved as the snapshot at `now` unless the save fails. |
| OrderPage.OrderPage.UpsertPizza | client/src/pages/order.tsx:297-321 | The cart is the upsert of the old one. The count rises by one, the invariant is kept, and the rest of the state is unchanged. After restore the new state is saved as the snapshot at `now` unless the save fails; before restore the slot is unchanged. |
| OrderPage.OrderPage.AddOther | client/src/pages/order.tsx:323-341 | The cart is the add of the old one. The count rises by one, the invariant is kept, and the rest is unchanged. After restore the new state is saved as the snapshot at `now` unless the save fails; before restore the slot is unchanged. |
| OrderPage.OrderPage.DecLine | client/src/pages/order.tsx:343-363 | The cart is `decLine` of the old one, all quantities stay positive, and the invariant is kept. After restore the new state is saved as the snapshot at `now` unless the save fails; before restore the slot is unchanged. |
| OrderPage.OrderPage.IncLine | client/src/pages/order.tsx:365-377 | The cart is `incLine` of the old one. The count rises by the number of matching lines, and the invariant is kept. After restore the new state is saved as the snapshot at `now` unless the save fails; before restore the slot is unchanged. |
| OrderPage.OrderPage.ClearCart | client/src/pages/order.tsx:379-383 | Cart and notes are emptied and the mode kept. After restore, a successful save leaves an empty session with the mode, saved at `now`. Otherwise the slot is empty, or unchanged when the delete also fails. |
| OrderPage.OrderPage.HandleCheckout | client/src/pages/order.tsx:385-391 | Status becomes processing and one completion is scheduled; the cart is untouched. |
| OrderPage.OrderPage.CompleteCheckout | client/src/pages/order.tsx:387-390 | The timer fires: status becomes success and the cart is cleared, with the same slot outcome as ClearCart. |

## Left out

- Rendering (JSX, dialogs, the checkout sheet, `money`'s `toFixed(2)` formatting) is not modelled: it shows state and does not change it.
- Money is exact `real` arithmetic; IEEE double rounding of sums such as `subtotal * 0.08` is not modelled.
- `JSON.stringify`/`JSON.parse` are abstracted: the slot holds what parsing yields (`Parsed`). Extra fields of a stored object and the contents of its `lineItems` array are not modelled; the loader does not check them either.
- Restored line items are adopted as typed line items; malformed elements inside the array, which the loader does not validate, are not modelled.
- The default `sort` orders strings by UTF-16 code units; the model orders by Dafny `char`, which agrees for the ids in the catalog but not for characters outside the Basic Multilingual Plane.
- PizzaKey.PizzaKeyDistinguishes: requires ids free of `|` and of `,` and non-empty topping ids, because keys built from other ids can collide in the source as well.
- The 1400 ms checkout timer is modelled as a pending-completion counter; its duration and interleaving with other handlers beyond that are not modelled.
- Storage events from other tabs and concurrent writers are not modelled.
- The customizer's toggle reads `checked` from the render; the model reads the current topping list, which is the same value unless two clicks fall into one render.
- The UI's visual gating (the clear control greyed out and the mobile checkout bar hidden while the cart is empty) is rendering only: the methods accept every call the handlers accept.
- OrderPage.OrderPage.Restore: the `readFailed` and `saveFailed` results are not in the source, which swallows failing storage calls; they are there so the contract can say that only such a failure keeps a restorable session from being adopted or the snapshot from being saved. The `saveFailed` and `clearFailed` results of the other page methods are there for the same reason.
- OrderPage.OrderPage.HandleCheckout: accepts a call in the success state. The page never makes one, because the success screen replaces the page and renders no checkout control.
- The menu page, other pages, the header, footer and server are not part of this model.
