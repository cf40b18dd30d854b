# Food-ordering app: phone, address-form and cart-line logic in Dafny

This project models the small pieces of logic in the food-ordering mobile client that are not screen layout or network calls:

- **UK mobile numbers** (`PhoneFormat`, phone.dfy, after lib/utils.ts). `Format` models `formatPhoneNumber` and `IsValid` models `isValidPhoneNumber`. Both keep only the decimal digits of their input. They then recognise four shapes: 13 or 12 digits starting `447`, 11 digits starting `07`, and 10 digits starting `7`. `Format` rewrites a recognised number as `07xxx xxx xxx[x]` by the source's fixed slices and returns any other input unchanged. `NationalNumber` is an independent reference reading: the digits after the country code 44 or the trunk prefix 0. `Layout` is the display grouping. The lemmas tie the two operations to these definitions.
- **Address form** (`AddressForm`, address_form.dfy, after app/address-form.tsx). It models the seven-field form record and `handleInputChange`. It models `validateForm`, the ordered chain of "required after `trim()`" checks, returning the alert it would raise. It models the create-or-update decision of `handleSubmit` and the edit-mode prefill. `Trim` follows JavaScript's `String.prototype.trim`, with ECMAScript's whitespace and line-terminator characters written out.
- **Cart line helpers** (`CartItem`, cart_item.dfy, after components/CartItem.tsx). It models the unit price (`reduce` over the customization prices), the image-URL normaliser (`includes('?project=')`), the customization summary (`map`/`join(', ')`) and the arguments the decrease/increase/remove buttons pass to the cart store. Prices are integers in minor currency units.

`Wrappers` (wrappers.dfy) holds the `Option` type that stands for `undefined`.

The source's own observable behaviour is kept, including one oddity the proofs expose. A 13-digit `447…` number is valid, but `Format` turns it into `07xxx xxx xxxx`. That result has twelve digits starting `07`, and no recognised shape accepts it. So in that one shape the formatted number is no longer valid (`FormatKeepsValidity`). It is still a fixed point of `Format` (`FormatIdempotent`).

## Model

| member | source | states |
|---|---|---|
| PhoneFormat.Digits | lib/utils.ts:4 | the digits kept are never more than the input's characters |
| PhoneFormat.DigitsDropsNonDigit | lib/utils.ts:4 | a character other than `0`-`9` is dropped; with `DigitsAreDigits`, `DigitsAppend` and `DigitsOfDigits` this fixes `replace(/\D/g, '')` completely |
| PhoneFormat.DigitsAreDigits | lib/utils.ts:4 | `replace(/\D/g, '')` leaves only the characters `0`-`9` |
| PhoneFormat.DigitsAppend | lib/utils.ts:4 | digit stripping distributes over concatenation |
| PhoneFormat.DigitsOfDigits | lib/utils.ts:4 | a string of digits is left as it is by digit stripping |
| PhoneFormat.Format | lib/utils.ts:1-39 | any input that `isValidPhoneNumber` rejects is returned unchanged, including `''` |
| PhoneFormat.IsValid | lib/utils.ts:41-52 | a number is valid exactly when its digits have a UK mobile reading (10 significant digits after `0`, `44` or nothing; 11 after `44`), all starting with `7` |
| PhoneFormat.EmptyInput | lib/utils.ts:2 | `formatPhoneNumber('')` is `''` and `isValidPhoneNumber('')` is false |
| PhoneFormat.FormatIsLayout | lib/utils.ts:6-35 | each of the four slicing branches produces `0`, then 4, 3 and the remaining significant digits in space-separated groups; the significant digits are the tail of the input's digits |
| PhoneFormat.LayoutDigits | lib/utils.ts:6-35 | the digits of the formatted text are `0` followed by the significant digits |
| PhoneFormat.ValidFormatShape | lib/utils.ts:6-35 | a valid number comes out starting `07`, with spaces exactly at positions 5 and 9, digits elsewhere, its digits being `0` plus the input's digits after the country or trunk prefix, in order |
| PhoneFormat.DependsOnlyOnDigits | lib/utils.ts:41-51 | inputs with the same digits are equally valid and, when valid, format identically |
| PhoneFormat.FormatIdempotent | lib/utils.ts:1-39 | formatting a formatted result returns it unchanged |
| PhoneFormat.FormatKeepsValidity | lib/utils.ts:6-51 | the formatted form of a valid number is valid again exactly when the input did not have 13 digits |
| AddressForm.EmptyForm | app/address-form.tsx:24-32 | the form starts with every field empty |
| AddressForm.HandleInputChange | app/address-form.tsx:99-101 | the named field takes the new value and every other field is unchanged |
| AddressForm.Trim | app/address-form.tsx:56-72 | `.trim()` never lengthens the value; what it removes is stated by `TrimIsInnerSlice` |
| AddressForm.TrimStartSpec | app/address-form.tsx:56 | trimming the start drops exactly a whitespace prefix and stops at the first other character |
| AddressForm.TrimEndSpec | app/address-form.tsx:56 | trimming the end drops exactly a whitespace suffix and stops at the last other character |
| AddressForm.TrimIsInnerSlice | app/address-form.tsx:56 | `trim()` returns the slice between a whitespace-only prefix and suffix, neither starting nor ending with whitespace |
| AddressForm.TrimEmptyIffWhitespace | app/address-form.tsx:56-72 | `.trim()` leaves nothing exactly when the value is whitespace only |
| AddressForm.Blank | app/address-form.tsx:56-72 | `!value.trim()` holds exactly when the value is whitespace only, so such a value fails a required check |
| AddressForm.ValidateForm | app/address-form.tsx:55-78 | the form is accepted exactly when label, street, building number, city and postal code are all non-blank; a blank label is reported first, whatever the other fields hold |
| AddressForm.ValidIffRequiredPresent | app/address-form.tsx:55-78 | the form is valid iff label, street, building number, city and postal code are all non-blank |
| AddressForm.ValidateReportsFirstBlank | app/address-form.tsx:56-75 | exactly one alert is raised, that of the first blank field in the order label, street, building number, city, postal code |
| AddressForm.OptionalFieldsIgnored | app/address-form.tsx:55-78 | changing the apartment number or delivery note never changes the validation outcome |
| AddressForm.WhitespaceOnlyIsMissing | app/address-form.tsx:56-75 | a required field holding only whitespace makes the form invalid |
| AddressForm.EmptyFormNeedsLabel | app/address-form.tsx:56-58 | the initial form is rejected with "Address label is required" |
| AddressForm.HandleSubmit | app/address-form.tsx:80-89 | no create or update is requested when validation fails; otherwise the whole form is sent, as an update of `id` in edit mode and as a create otherwise |
| AddressForm.OrEmpty | app/address-form.tsx:41-47 | the `''` default keeps a present value and gives `''` for a missing one |
| AddressForm.Prefill | app/address-form.tsx:40-48 | each of the seven fields is copied from the stored address, missing ones as `''` |
| AddressForm.PrefillEffect | app/address-form.tsx:36-53 | the form is replaced by the prefill only in edit mode with parsed data, and is otherwise left as it was |
| AddressForm.PrefillRoundTrip | app/address-form.tsx:40-48 | reopening a stored form in edit mode gives back the same form |
| CartItem.CustomizationList | components/CartItem.tsx:43 | the list each button reads (also at lines 57 and 72): the line's customizations when present, `[]` when absent |
| CartItem.ReducePrices | components/CartItem.tsx:12 | the `reduce` left fold from `acc` equals `acc` plus the sum of the customization prices |
| CartItem.TotalItemPrice | components/CartItem.tsx:10-12 | the unit price is the base price plus the sum of the customization prices, with an absent list counted as empty |
| CartItem.PlainLinePrice | components/CartItem.tsx:12 | a line with absent or empty customizations costs its base price |
| CartItem.SumPermutation | components/CartItem.tsx:12 | the customization total is the same for any reordering of the customizations |
| CartItem.PriceIgnoresCustomizationOrder | components/CartItem.tsx:10-12 | reordering a line's customizations leaves its unit price unchanged |
| CartItem.Contains | components/CartItem.tsx:14 | `includes` always finds the empty text, and finds nothing longer than the URL |
| CartItem.OccursThenContains | components/CartItem.tsx:14 | an occurrence of the text at any position makes the `includes` scan succeed |
| CartItem.ContainsThenOccurs | components/CartItem.tsx:14 | when the `includes` scan succeeds, the text occurs at the position returned |
| CartItem.ContainsIffOccurs | components/CartItem.tsx:14 | the `includes` scan succeeds exactly when the text occurs at some position |
| CartItem.NormalizeImageUrl | components/CartItem.tsx:14-16 | the normalised URL always contains `?project=` and starts with the original URL |
| CartItem.KeepsProjectUrl | components/CartItem.tsx:14-15 | a URL that already contains `?project=` is returned unchanged |
| CartItem.AppendsProjectQuery | components/CartItem.tsx:16 | any other URL gets `?project=` and the project id appended |
| CartItem.NormalizeIdempotent | components/CartItem.tsx:14-16 | normalising again, with any project id, changes nothing |
| CartItem.Names | components/CartItem.tsx:37 | the names are the customizations' names, one each, in list order |
| CartItem.Join | components/CartItem.tsx:37 | `join(', ')` starts with the first name, followed by `, ` when there is a second |
| CartItem.Summary | components/CartItem.tsx:35-37 | a summary is shown exactly when the customization list is present and non-empty |
| CartItem.SplitJoin | components/CartItem.tsx:37 | the names joined by `, ` can be split back into the same list, in order, when no name contains a comma |
| CartItem.SummaryReadsBack | components/CartItem.tsx:35-37 | the summary of a non-empty list reads `+ ` followed by the names, which split back at `, ` into the list, in order, when no name holds a comma |
| CartItem.OnPress | components/CartItem.tsx:42-73 | each button passes its action, the line's id and its customization list, with `[]` for an absent list |
| CartItem.StoreCallMatchesPrice | components/CartItem.tsx:43-72 | the customizations a button passes to the store are exactly the ones priced on the line |

## Left out

- The cart store (store/cart.store.ts) is not part of this model. This covers adding, merging lines by item and customizations, increasing, decreasing, removing, clearing, and the cart totals. Only the call arguments at components/CartItem.tsx:43, 57 and 72 are modelled (`OnPress`).
- The customization and cart-line types (type/index.ts) are not part of this model. A customization carries only the `name` and `price` that CartItem.tsx reads.
- Network calls are foreign calls and are left out: `createAddress`, `updateAddress` and the address loading. `HandleSubmit` returns the request it would make, and makes none on a validation failure. Its error alert, `router.back()` and the `isSubmitting` flag are not modelled.
- `alert`, `Alert.alert` and `console` are side effects. The validation alert is returned as `Invalid(alert)` instead.
- `JSON.parse` failure is modelled as `None` in `PrefillEffect`, which leaves the form unchanged as the `catch` does. Stored fields that are JSON values other than strings (numbers, booleans) are not modelled; a field is a string or missing.
- `formatPhoneNumber` and `isValidPhoneNumber` take a `string`. Their `!phoneNumber` guard is modelled for `''` only; `null` and `undefined` are not. JavaScript strings are UTF-16 code units and Dafny characters are Unicode scalar values. This does not change any result: the slices apply only to the ASCII digit string.
- Floating-point arithmetic is left out. Prices are exact integers in minor units. The `number` sum in `totalItemPrice` and its `toFixed(2)` display are not modelled.
- JSX rendering, React state (`useState`, `useEffect` timing) and the screens app/addresses.tsx, app/(tabs)/profile.tsx, app/menu/[id].tsx, components/AddressCard.tsx and components/CustomHeader.tsx have no logic beyond display and network calls. components/UpdatePhoneModal.tsx is not part of this model either: it holds only a guard that rejects a blank or whitespace-only number with an alert, around the network call that saves the trimmed number.
- TrimStart, TrimEnd, Trim: their own contracts state only a length bound. What they remove is stated by `TrimStartSpec`, `TrimEndSpec` and `TrimIsInnerSlice`.
