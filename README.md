# Cruise packing checklist: a verified model

This project models the core of a cruise packing checklist application in Dafny.

On the server side:

- **Storage**: an in-memory store of packing lists (`MemStorage`), kept as a map plus the insertion order a JavaScript `Map` iterates in.
- **Schema**: the validation rules a list body must pass, for the insert schema and its `.partial()` variant. Unknown keys are dropped, defaults are filled in, and the refused fields are reported as paths.
- **Routes**: the status and body each REST handler answers with, and what it does to the store.
- **Weather**: the canned "historical weather" lookup. It matches destination keys first-to-last, derives a season from the month, and picks per-month pattern variants.

On the client side:

- **Catalogue**: the default catalogue of 39 items in five categories, and the item operations of the packing page. An update merges a partial item into the first item with the id in each category, an add appends a custom item, and a remove filters by id. Saving flattens the categories into an id-keyed record, where a later item wins.
- **Page**: the page's state and its handlers: update, add, remove, per-section notes, Clear All, Save, and remembering the id of a saved list.
- **ItemControl**: one item row. Its quantity stepper accepts only 0..99, typed text counts as 0 when it is not a number, and every change is reported.
- **Section**: one section. The custom-item field trims the name, builds a checked custom item with quantity 1 and clears itself; Enter does the same as the button. A remove callback is given only to custom items.

The fresh list id (`randomUUID`), the current time and the custom item id (`Date.now()` and `Math.random()`) are parameters. The month of a weather request is also an input; parsing the date is not part of the model. JSON bodies are modelled as an already-parsed `Json` value whose numbers are integers, and a zod error list as the set of paths of the refused fields.

Each module is one file:

- `wrappers.dfy`: `Option`, `Result`.
- `text.dfy`: ASCII `toLowerCase`, `includes`, `substring`, `trim`.
- `schema.dfy`: shared/schema.ts.
- `storage.dfy`: server/storage.ts.
- `routes.dfy`: the handlers of server/routes.ts.
- `weather.dfy`: `getHistoricalWeatherData`.
- `catalogue.dfy` and `page.dfy`: the pages/cruise-packing.tsx logic.
- `item_control.dfy`: PackingItem.tsx.
- `section.dfy`: PackingSection.tsx.
- `aliased_page.dfy`: the in-place update described under Findings.

Points where the model follows the code as written:

- **Season.** The code compares the 0-based `getMonth()` value with 3..5, 6..8 and 9..11. So month index 2 (March) is winter, and index 5 (June) is spring, not summer. `Weather.SeasonOf` states the rule as written.
- **Hurricane window.** The hurricane-season window 6..11 is July to December.
- **Weather refusal.** A weather request with an empty `destination` or `date` is refused with 400, exactly like a missing one.

## Model

| member | source | states |
|---|---|---|
| Text.Lower | server/routes.ts:227 | Lower-casing keeps the length and lowers each ASCII letter in place. |
| Text.ContainsIff | server/routes.ts:227-228 | `includes` holds exactly when the substring occurs at some offset (both directions). |
| Text.MissingCharNotContained | server/routes.ts:227-228 | A string that lacks some character of `sub` does not include `sub`. |
| Text.Prefix | server/routes.ts:228 | `substring(0, 6)` is a prefix of the string, of length six or the whole string when shorter. |
| Text.Trim | client/src/components/PackingSection.tsx:45-47 | The trimmed name is a contiguous slice of the input that neither starts nor ends with whitespace, and everything cut off before and after it is whitespace. |
| Text.TrimEmptyIff | client/src/components/PackingSection.tsx:45 | The name trims to nothing exactly when every character is whitespace, so those are the names the add refuses. |
| Text.TrimIdempotent | client/src/components/PackingSection.tsx:47 | Trimming the already trimmed name changes nothing. |
| Weather.Temperatures | server/routes.ts:111-222 | Every table entry defines all four seasons, so the summer fallback at line 240 never applies. |
| Weather.PatternOf | server/routes.ts:109-223 | Each region's entry, specialised to the month of the request, carries that region's four-season temperatures. |
| Weather.SeasonOf | server/routes.ts:232-234 | Spring iff month 3..5, summer iff 6..8, fall iff 9..11, winter iff 0..2, with 0-based months as `getMonth` gives them. |
| Weather.FindRegion | server/routes.ts:226-229 | A found entry matches and no earlier entry does; when nothing is found, no entry matches. |
| Weather.SelectedIsFirstMatch | server/routes.ts:226-231 | The selected pattern is the first matching key in table order, or the tropical entry when no key matches. |
| Weather.Assemble | server/routes.ts:236-246 | The forecast echoes destination and date, carries the season and the constant source, takes the season's temperature whenever the entry has one, and passes on the entry's conditions, recommendations, clothing suggestions and weather essentials. |
| Weather.Lookup | server/routes.ts:105-247 | The forecast echoes the query, its season is the month's season, its temperature is the selected region's for that season, and its conditions, recommendations, clothing suggestions and weather essentials are those of the selected region's entry for the month. |
| Weather.HurricaneSeason | server/routes.ts:118-136 | Caribbean conditions and outerwear, and Bahamas conditions, take their hurricane variants exactly in months 6..11. |
| Weather.MediterraneanRules | server/routes.ts:148-165 | Mediterranean conditions: hot and dry in 6..8, cool and rainy in 11 and 0..2, mild otherwise. The summer clothing and essentials are used exactly in 6..8. |
| Weather.CaribbeanForecastHurricane | server/routes.ts:118-136 | A destination that selects the Caribbean entry gets the hurricane conditions and rain-jacket outerwear from the endpoint exactly in months 6..11. |
| Weather.CaribbeanInJuly | server/routes.ts:105-247 | "Caribbean Cruise" in month 6: the Caribbean entry, summer, 88/79 and hurricane guidance. |
| Weather.CaribbeanCruiseIsCaribbean | server/routes.ts:226-227 | "Caribbean Cruise" selects the Caribbean entry. |
| Weather.AntarcticaIsTropical | server/routes.ts:226-231 | "Antarctica" matches no key, so the tropical entry is used. |
| Weather.AntarcticaMatchesNothing | server/routes.ts:226-228 | "Antarctica" matches none of the six keys in either direction. |
| Weather.AntarcticaMisses | server/routes.ts:227-228 | A key with a letter "antarctica" lacks, and missing a letter of "antarc", matches neither way. |
| Weather.EmptyDestinationIsCaribbean | server/routes.ts:228 | An empty destination would select the first key, since every key includes the empty prefix. |
| Schema.ParseItem | shared/schema.ts:21-29 | An item parses exactly when it has no issue; a failure reports exactly its issues; a parsed item has a quantity of at least 0. |
| Schema.ItemAcceptedIff | shared/schema.ts:21-29 | Both directions: an item is accepted iff it is an object with string id/name/category, an optional string subcategory, optional boolean flags and an optional quantity >= 0. |
| Schema.ItemDefaults | shared/schema.ts:25-28 | An absent checked or isCustom becomes false, an absent quantity becomes 1, the subcategory is absent iff the key is and, when present, is the text sent; id, name and category are the texts sent. |
| Schema.NegativeQuantityRejected | shared/schema.ts:27 | A negative quantity is refused, and the issue names `quantity`. |
| Schema.ItemRoundTrip | shared/schema.ts:21-29 | Every valid item parses back from its JSON form as itself. |
| Schema.ItemsIssuesEmptyIff | shared/schema.ts:31 | The item record has no issue iff it is an object whose every value is an accepted item. |
| Schema.ParseItems | shared/schema.ts:31 | The record parses iff every value parses. The keys are kept as sent, each value is the parsed item, and a failure reports a non-empty set of issues. |
| Schema.ParseItemsPointwise | shared/schema.ts:31 | A record whose values parse to given items parses to exactly those items under the same keys. |
| Schema.KeyNeedNotBeItemId | shared/schema.ts:31 | A record may store an item under a key other than the item's id. |
| Schema.TextField | shared/schema.ts:9-16 | A nullable text field that passed its rule is absent iff the key is missing and null iff the value is null; otherwise it is the given text. |
| Schema.ParseInsert | shared/schema.ts:33-39 | The insert schema accepts iff there is no issue, and a refusal reports exactly the issues. |
| Schema.InsertAccepted | shared/schema.ts:33-39 | A body with a text name, nullable text columns and a valid item record is accepted with that name, each of the seven nullable columns as sent (absent, null or the given text) and exactly those items. |
| Schema.InsertRequiresNameAndItems | shared/schema.ts:8-38 | A body that is not an object is refused at the root by both schemas. On create, a missing `name` or `items` is an issue. |
| Schema.InvalidItemRejectsList | shared/schema.ts:31-39 | One invalid item refuses the whole insert and update body; each of its issues is reported under `items.<key>`. |
| Schema.DropServerFields | shared/schema.ts:33-37 | Removing `id`, `createdAt` and `updatedAt` keeps every key either schema reads. |
| Schema.InsertIgnoresServerFields | shared/schema.ts:33-37 | The insert schema gives the same result with or without the server-assigned fields. |
| Schema.ParsePatch | server/routes.ts:69 | The partial schema accepts iff there is no issue, and a refusal reports exactly the issues. |
| Schema.PatchIgnoresServerFields | server/routes.ts:69 | The partial schema gives the same result with or without the server-assigned fields. |
| Schema.InsertIsPatch | server/routes.ts:69 | Whatever the insert schema accepts, the partial schema accepts as the patch that supplies every field. |
| Schema.EmptyBodyIsEmptyPatch | server/routes.ts:69 | The empty object is a valid update that supplies nothing. |
| Schema.PatchFieldsObeyRules | server/routes.ts:69 | In an accepted update, a present name is text and is supplied, present items parse and are supplied, an absent field is not supplied, and each of the seven nullable columns is taken as sent (absent, null or the given text). |
| Storage.OrNull | server/storage.ts:28-34 | `x \|\| null` gives null exactly for an absent, null or empty text; otherwise the non-empty text given. |
| Storage.Created | server/storage.ts:23-38 | A created record has the fresh id, the name and items as given, and both timestamps set to now. |
| Storage.CreatedFields | server/storage.ts:26-38 | Each text column of a created record follows the create rule, so no column holds the empty string. |
| Storage.Overlay | server/storage.ts:47-51 | In an update, an absent field keeps the stored value, null clears it, and given text replaces it. |
| Storage.Patched | server/storage.ts:47-51 | An update keeps id and createdAt, sets updatedAt to now, and takes name and items from the update when supplied. |
| Storage.EmptyPatchOnlyTouches | server/storage.ts:47-51 | An update that supplies nothing changes only updatedAt. |
| Storage.ItemsReplacedWhole | server/storage.ts:47-51 | Supplied items replace the stored record whole: an item not supplied is gone. |
| Storage.EmptyTextKeptByUpdate | server/storage.ts:28-51 | The empty text becomes null on create but is stored as "" by an update. |
| Storage.PatchedThen | server/storage.ts:47-51 | Two updates in a row store what their field-by-field combination stores at the later time. |
| Storage.PatchedIdempotent | server/storage.ts:47-51 | Repeating an update changes nothing but the time. |
| Storage.Without | server/storage.ts:57 | Deleting from the order keeps exactly the other ids, still distinct, and changes nothing for a missing id. |
| Storage.WithoutConcat | server/storage.ts:57 | Deleting distributes over concatenation, so the ids that stay keep their relative order. |
| Storage.WithoutAt | server/storage.ts:57 | In a duplicate-free order, deleting the id at position i leaves exactly the ids before it followed by the ids after it. |
| Storage.WithoutAppended | server/storage.ts:39-57 | Deleting the id just appended restores the previous order. |
| Storage.DistinctCard | server/storage.ts:60-62 | Distinct ids number as many as the order holds, so the list count is the number of stored entries. |
| Storage.MemStorage.Values | server/storage.ts:61 | The stored lists in insertion order, one per id of the order. |
| Storage.MemStorage.constructor | server/storage.ts:15-17 | The store starts empty. |
| Storage.MemStorage.Get | server/storage.ts:19-21 | Finds a list iff the id is stored, and the list found is the one stored under it. |
| Storage.MemStorage.Create | server/storage.ts:23-41 | Stores the created record under the fresh id, appends the id to the order and returns the record. |
| Storage.MemStorage.Update | server/storage.ts:43-54 | A missing id gives no result and changes nothing; otherwise the patched record is stored in place and returned; the order is unchanged. |
| Storage.MemStorage.Delete | server/storage.ts:56-58 | Reports whether the id was stored and removes it from the map and from the order. |
| Storage.MemStorage.GetAll | server/storage.ts:60-62 | Returns every stored list exactly once, in insertion order, each under its own id. |
| Storage.CreateThenDelete | server/storage.ts:39-57 | Creating and then deleting the same fresh id restores the map and the order. |
| Routes.WeatherEndpoint | server/routes.ts:9-23 | 400 with the error message exactly when destination or date is missing or empty; otherwise 200 with the lookup. |
| Routes.WeatherEchoesQuery | server/routes.ts:236-239 | An answered weather request echoes its destination and date, with the month's season. |
| Routes.GetAllLists | server/routes.ts:26-33 | 200 with all stored lists in insertion order. |
| Routes.GetList | server/routes.ts:36-49 | 200 with the stored list exactly when the id is stored, otherwise 404 "Packing list not found". |
| Routes.CreateList | server/routes.ts:52-63 | A body the insert schema refuses gives 400 with its issues and leaves the store unchanged. Otherwise 201 with the created record, which is now stored. |
| Routes.UpdateList | server/routes.ts:66-83 | A refused body gives 400 before the id is looked up. Then an unknown id gives 404 and no change. Otherwise 200 with the patched record stored; the order never changes. |
| Routes.DeleteList | server/routes.ts:86-99 | 204 with no body iff the id was stored, otherwise 404; afterwards the id is neither stored nor in the insertion order, and the other lists keep their order. |
| Routes.CreateThenFetch | server/routes.ts:36-63 | A list answered 201 is what a fetch of its id answers 200 with; after a 400 the fetch is 404. |
| Routes.DeleteThenAccess | server/routes.ts:36-99 | After a delete, a fetch is 404, an accepted update is 404 and a second delete is 404. |
| Catalogue.DefaultsListed | client/src/components/contexts/hooks/lib/pages/cruise-packing.tsx:30-88 | The default catalogue has the five categories. Each default item sits in its own category, is not custom and has a quantity in 0..99. |
| Catalogue.DefaultIdsDistinct | client/src/components/contexts/hooks/lib/pages/cruise-packing.tsx:30-88 | No id occurs twice in the whole default catalogue. |
| Catalogue.Concat | client/src/components/contexts/hooks/lib/pages/cruise-packing.tsx:144 | The concatenated categories hold exactly the items of those categories. |
| Catalogue.Flatten | client/src/components/contexts/hooks/lib/pages/cruise-packing.tsx:144 | `Object.values(items).flat()` holds exactly the items of all categories. |
| Catalogue.ById | client/src/components/contexts/hooks/lib/pages/cruise-packing.tsx:142-146 | The saved record has a key for each item id, and only those; each value is an item of the list with that id. |
| Catalogue.LastWins | client/src/components/contexts/hooks/lib/pages/cruise-packing.tsx:145 | The item recorded under an id is the last item with that id. |
| Catalogue.DistinctRecorded | client/src/components/contexts/hooks/lib/pages/cruise-packing.tsx:142-146 | With distinct ids, every item is recorded under its own id and the record has one entry per item. |
| Catalogue.CollectById | client/src/components/contexts/hooks/lib/pages/cruise-packing.tsx:142-146 | The loop builds exactly the id-keyed record of the flattened items. |
| Catalogue.DefaultsSaved | client/src/components/contexts/hooks/lib/pages/cruise-packing.tsx:30-146 | Saving the default catalogue records all 39 items, each under its own id. |
| Catalogue.SavedItemsValidate | client/src/components/contexts/hooks/lib/pages/cruise-packing.tsx:148-152 | A saved record of valid items passes the item-record schema unchanged, with the same keys and items. |
| Catalogue.SaveValidates | client/src/components/contexts/hooks/lib/pages/cruise-packing.tsx:140-153 | Saving a catalogue of valid items yields a record the server accepts exactly as sent. |
| Catalogue.MergeFields | client/src/components/contexts/hooks/lib/pages/cruise-packing.tsx:161 | Each of the seven fields is the update's value when it supplies one and the item's own otherwise. The empty update is a no-op, and merging twice is merging once. |
| Catalogue.FindIndex | client/src/components/contexts/hooks/lib/pages/cruise-packing.tsx:159 | `findIndex` returns the first position with the id, or -1 exactly when no item has it. |
| Catalogue.UpdateFirst | client/src/components/contexts/hooks/lib/pages/cruise-packing.tsx:159-162 | Only the first item with the id is merged; every other position is unchanged. |
| Catalogue.UpdatedShape | client/src/components/contexts/hooks/lib/pages/cruise-packing.tsx:155-166 | The update keeps the categories and their lengths. In each category it merges exactly the first item with the id. |
| Catalogue.UpdateUnknownId | client/src/components/contexts/hooks/lib/pages/cruise-packing.tsx:155-166 | An id no item carries changes nothing. |
| Catalogue.UpdatedKeepsValid | client/src/components/contexts/hooks/lib/pages/cruise-packing.tsx:155-166 | An update that sets no negative quantity keeps every item valid. |
| Catalogue.UpdateItems | client/src/components/contexts/hooks/lib/pages/cruise-packing.tsx:155-166 | The loop over the categories produces exactly the updated catalogue. |
| Catalogue.WithCustomItem | client/src/components/contexts/hooks/lib/pages/cruise-packing.tsx:168-176 | The new item, with its id, is appended to its own category; the other categories are unchanged. |
| Catalogue.Drop | client/src/components/contexts/hooks/lib/pages/cruise-packing.tsx:182 | The filter keeps exactly the items with another id, and changes nothing when no item has the id. |
| Catalogue.DropConcat | client/src/components/contexts/hooks/lib/pages/cruise-packing.tsx:182 | The filter keeps order: it distributes over concatenation. |
| Catalogue.Removed | client/src/components/contexts/hooks/lib/pages/cruise-packing.tsx:178-186 | Every category is filtered by the id; the categories stay. |
| Catalogue.DropIdempotent | client/src/components/contexts/hooks/lib/pages/cruise-packing.tsx:182 | After the filter no item has the id, and filtering again changes nothing. |
| Catalogue.RemovedIdempotent | client/src/components/contexts/hooks/lib/pages/cruise-packing.tsx:178-186 | After a remove no category holds the id, and removing again changes nothing. |
| Catalogue.RemoveUnknownId | client/src/components/contexts/hooks/lib/pages/cruise-packing.tsx:178-186 | Removing an id no item carries changes nothing. |
| Catalogue.RemoveUndoesAdd | client/src/components/contexts/hooks/lib/pages/cruise-packing.tsx:168-186 | Removing a custom item right after adding it under a new id restores the catalogue. |
| Page.PayloadAccepted | client/src/components/contexts/hooks/lib/pages/cruise-packing.tsx:148-152 | A payload of valid items passes the insert schema with its name, its notes as given text, and exactly its items. |
| Page.SaveAccepted | client/src/components/contexts/hooks/lib/pages/cruise-packing.tsx:140-153 | What a save sends is accepted whenever the items are valid: the notes arrive as "" and the items exactly as flattened. |
| Page.PackingPage.constructor | client/src/components/contexts/hooks/lib/pages/cruise-packing.tsx:93-109 | The page starts with the default catalogue, no notes, no saved list and the default form. |
| Page.PackingPage.UpdateItem | client/src/components/contexts/hooks/lib/pages/cruise-packing.tsx:155-166 | The items become the updated catalogue and nothing else changes. Together with `ClearAll`, this is the corrected half of the finding. |
| Page.PackingPage.AddCustomItem | client/src/components/contexts/hooks/lib/pages/cruise-packing.tsx:168-176 | The items become the catalogue with the custom item appended, and nothing else changes. |
| Page.PackingPage.RemoveItem | client/src/components/contexts/hooks/lib/pages/cruise-packing.tsx:178-186 | The items become the catalogue with the id filtered out, and nothing else changes. |
| Page.PackingPage.UpdateNotes | client/src/components/contexts/hooks/lib/pages/cruise-packing.tsx:286 | The section's notes are set, and nothing else changes. |
| Page.PackingPage.ClearAll | client/src/components/contexts/hooks/lib/pages/cruise-packing.tsx:188-199 | When confirmed: exactly the default catalogue, the default form, no notes and no saved list. Otherwise nothing changes. |
| Page.PackingPage.Save | client/src/components/contexts/hooks/lib/pages/cruise-packing.tsx:140-153 | Sends the form and the id-keyed record of the flattened items. The notes are always "", since no section sets `general`. |
| Page.PackingPage.Saved | client/src/components/contexts/hooks/lib/pages/cruise-packing.tsx:120-124 | The first successful save remembers the server's id; later ones keep it. |
| Page.DefaultCamera | client/src/components/contexts/hooks/lib/pages/cruise-packing.tsx:67 | The camera is the third electronics default and is unchecked. |
| Page.CameraResetByClearAll | client/src/components/contexts/hooks/lib/pages/cruise-packing.tsx:155-199 | Checking the camera and then clearing leaves it unchecked. |
| ItemControl.ReportsTouchOneField | client/src/components/PackingItem.tsx:18-27 | A quantity report changes only the quantity, and a checkbox report only the checked flag. |
| ItemControl.ReportedQuantityKeepsValid | client/src/components/PackingItem.tsx:18-23 | Applying an accepted quantity report keeps every item valid. |
| ItemControl.ItemRow.constructor | client/src/components/PackingItem.tsx:16 | The row starts with the item's quantity and has reported nothing. |
| ItemControl.ItemRow.ChangeQuantity | client/src/components/PackingItem.tsx:18-23 | A quantity in 0..99 is taken and reported once; any other is ignored and nothing is reported. |
| ItemControl.ItemRow.Decrease | client/src/components/PackingItem.tsx:47 | Minus lowers the quantity by one and reports it when the result is in 0..99; otherwise (at 0, or from a quantity above 100) it does nothing. |
| ItemControl.ItemRow.Increase | client/src/components/PackingItem.tsx:66 | Plus raises the quantity by one and reports it when the result is in 0..99; otherwise (at 99 or above) it does nothing. |
| ItemControl.ItemRow.TypeQuantity | client/src/components/PackingItem.tsx:55 | The typed value is `parseInt(v) \|\| 0`, with 0 for text that is not a number. A value in 0..99 becomes the row's quantity and is reported; any other value changes neither the quantity nor the reports. |
| ItemControl.ItemRow.CheckedChange | client/src/components/PackingItem.tsx:25-27 | Reports the checked change, and the local quantity is untouched. |
| Section.RemoveShownIffCustom | client/src/components/PackingSection.tsx:87 | Within a section, a row shows the remove control exactly for a custom item. |
| Section.DefaultsNotRemovable | client/src/components/PackingSection.tsx:124 | No default item shows a remove control. |
| Section.InGroup | client/src/components/contexts/hooks/lib/pages/cruise-packing.tsx:227 | A subcategory group holds exactly the items of the category with that subcategory, each as many times as the category holds it. |
| Section.InGroupConcat | client/src/components/contexts/hooks/lib/pages/cruise-packing.tsx:227 | Grouping a concatenation groups each part and keeps them in order. |
| Section.InGroupAppend | client/src/components/contexts/hooks/lib/pages/cruise-packing.tsx:227 | An appended item goes to the end of its own group and leaves every other group unchanged, so each group lists its items in category order. |
| Section.CustomItemInNoGroup | client/src/components/PackingSection.tsx:46-52 | A custom item has no subcategory, so after it is added every subcategory group of its section holds what it held before. |
| Section.CustomItemFields | client/src/components/PackingSection.tsx:46-52 | The custom item has the trimmed, non-blank name and the section's category; it is checked, has quantity 1, is custom, has no subcategory and is valid. |
| Section.SectionInput.constructor | client/src/components/PackingSection.tsx:42 | The field starts empty and nothing has been added. |
| Section.SectionInput.SetName | client/src/components/PackingSection.tsx:98 | Typing sets the field; nothing is added. |
| Section.SectionInput.AddCustomItem | client/src/components/PackingSection.tsx:44-55 | A name that trims to nothing adds nothing and leaves the field as it is. Otherwise the custom item for the trimmed name is added once and the field is cleared. |
| Section.SectionInput.KeyPress | client/src/components/PackingSection.tsx:57-61 | Enter does exactly what the add button does; any other key does nothing. |
| AliasedPage.AliasedPage.constructor | client/src/components/contexts/hooks/lib/pages/cruise-packing.tsx:94 | The page's state is the default catalogue's own arrays. |
| AliasedPage.AliasedPage.UpdateItem | client/src/components/contexts/hooks/lib/pages/cruise-packing.tsx:155-166 | As written: each category array is overwritten in place with the updated list, and the record keeps the same arrays as the defaults. |
| AliasedPage.AliasedPage.ClearAll | client/src/components/contexts/hooks/lib/pages/cruise-packing.tsx:188-190 | As written: the default arrays are installed again, with whatever was written into them. |
| AliasedPage.CameraChecked | client/src/components/contexts/hooks/lib/pages/cruise-packing.tsx:67 | Merging `checked: true` into the default electronics checks the camera, which is unchecked by default. |
| AliasedPage.CameraSurvivesClearAll | client/src/components/contexts/hooks/lib/pages/cruise-packing.tsx:155-190 | As written: after checking the camera and clearing all, the camera is still checked, although the default lists it unchecked. |

## Left out

- Date parsing: `new Date(date).getMonth()` is an input to the model. Time zones, and the invalid date whose month is `NaN`, are not modelled. An unparseable date selects winter and the non-hurricane variants.
- Text: `toLowerCase` and `trim` are modelled for ASCII only. Unicode case mapping and Unicode whitespace are not modelled.
- Ids and time: `randomUUID`, `new Date()`, `Date.now()` and `Math.random()` are parameters.
- Create: requires the fresh id not to be stored already, which the source gets from `randomUUID`.
- JSON: numbers are integers. A fractional quantity, or a number in a text field, is not modelled beyond being a refused type.
- Query strings: a repeated query parameter, which Express reads as an array, is not modelled; a parameter is absent or one text.
- zod: the error list is modelled as the set of refused paths. Its order and the message texts are left out, and only a `quantity` below 0 on an item names a value check.
- drizzle: the column types come from the table definition in shared/schema.ts. The insert schema that drizzle-zod derives from them is written out field by field.
- Server errors: the 500 answers for an exception in a handler body are left out, since the in-memory store never throws.
- Storage.MemStorage: `async` is not modelled; each call is one atomic step.
- Storage.Patched: an update that sets a key explicitly to `undefined` is not modelled; JSON bodies cannot carry it.
- Page.PackingPage.Save: sending the request is left out. The POST-or-PUT choice on `currentListId`, the react-query cache invalidation (cruise-packing.tsx:112-125) and the auto-save effect (cruise-packing.tsx:213-222) are not modelled. Only the payload and the success step `Saved` are modelled.
- Page: toasts, the confirm dialog (an input of `ClearAll`), printing and PDF export, theme switching and rendering are not modelled.
- Page: editing the cruise details form is left out; the form values are part of the state, and Clear All restores their defaults. CruiseDetailsForm.tsx is not part of this model.
- ItemControl.ItemRow: the row's local quantity is not re-synchronised when the page later changes the item; the row captures the quantity once, as `useState` does.
- ItemControl.ItemRow.TypeQuantity: `parseInt` is an input, given as the parsed number or `None` for text that is not a number.
- AliasedPage.AliasedPage: covers only the update and Clear All. Add and remove build fresh arrays in the source, so they do not alias; they are modelled on values in `Page`.
- WeatherDisplay.tsx, MobileHeader.tsx, ThemeContext.tsx, ThemeSelector.tsx and App.tsx are not part of this model.

## Findings

| source | as written | input that shows it | evidently intended | confidence | as-written member | corrected member |
|---|---|---|---|---|---|---|
| client/src/components/contexts/hooks/lib/pages/cruise-packing.tsx:155-166 | `{ ...prev }` copies only the record. `newItems[category][itemIndex] = ...` writes into the category arrays shared with the previous state and, on a fresh page, with the module-level `defaultItems`. So `setItems(defaultItems)` in Clear All (188-190) restores the altered defaults. | On a fresh page, check "Camera" and confirm Clear All: the camera stays checked. | Clear All restores the catalogue exactly as listed at lines 30-88, with the camera unchecked. The update replaces the category array rather than writing into it. | not executed | AliasedPage.CameraSurvivesClearAll | Page.PackingPage.ClearAll |
