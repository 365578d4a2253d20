# Storefront product-grid widgets, modelled in Dafny

This project models the logic inside `assets/product-grid.js`, which defines three custom elements of an e-commerce theme:

- `dynamic-card` (module `DynamicCard`, class `Card`): a product card. It reads the shopper's option selection, which is the value of its `custom-dropdown` followed by the values of the checked inputs. It resolves that selection against the variant list embedded in the card as JSON. It rebuilds the add-to-cart payload: a variant line, plus a bundle line when the enclosing grid's bundle condition is met. After each change event the add-to-cart button is enabled exactly when a variant is resolved. On submit the card disables the button, shows a loader and posts the payload to the cart endpoint. Each settled request restores both, and a change event may re-enable the button earlier (see the submit lock below).
- `product-grid` (module `ProductGrid`): exposes bundle metadata parsed from two attributes. `data-bundle-condition` is a comma-separated list of option names, lower-cased and trimmed. `data-bundle-id` is the bundle's id.
- `custom-dropdown` (module `CustomDropdown`, class `Dropdown`): a select-like widget that is either closed or open. It shows a placeholder until an option is chosen, copies the options declared in its light DOM into its own list, and emits one `change` event carrying `{value, text}` per choice.

`JsString` models the ECMAScript string built-ins the parser relies on: `toLowerCase`, `trim` and `split(',')`. It also defines `join(',')` as the inverse that `split` is proved against. `Wrappers` holds `Option`. In this model `None` is JavaScript's `null`: an absent attribute, or a dropdown value taken from a missing `data-value`.

The pure parts are Dafny functions with lemmas: variant matching, payload building, bundle parsing and section ids. The parts the source updates in place are classes whose methods change fields: the card's `currentOptions`, `currentVariant`, `formData`, button, arrow and loader, and the dropdown's value, open state, arrow, option list and text. The cart request is split in two steps. `Card.AddToCart` starts it and `Card.CompleteRequest(outcome)` settles it. The network's answer is the parameter `outcome`: `Rejected`, `NotOk`, `BadJson` or `Ok`. Outward calls are recorded in `Card.effects`: the POST, closing the grid's dialog, `renderContents`, and clearing the drawer's `is-empty` flag.

Behaviour of the code that is easy to misread; the model follows it as written:

- Variant matching (`assets/product-grid.js:49-52`). The match is an `every` over the variant's own options. A variant therefore matches when its options are a prefix of the selection. Extra selection entries are ignored. A variant with fewer options listed earlier wins over an exact match (`DynamicCard.PrefixMatchWins`).
- A bundle-only payload (lines 56-77). The bundle line does not depend on a variant having matched. A selection that resolves no variant can still yield a one-line payload, holding only the bundle line.
- The bundle test. It lower-cases each selected value but does not trim it. The condition entries are both lower-cased and trimmed. A `null` dropdown value never passes the test.
- Focus-out (lines 320-333). The one-argument check of the focus-out's related target at line 324 is shadowed by the later `closeDropdown()` at line 330, so focus-out always closes the dropdown (`CustomDropdown.Dropdown.FocusOut`).
- The submit lock (lines 29-35, 91-118). A disabled button receives no clicks, and that is the lock. But any `change` event runs `toggleAddTocart()` again. While a request is outstanding, such an event re-enables the button when a variant is resolved, so a second request can start before the first settles. The client method `DynamicCard.ChangeDuringRequest` walks through this case. Each settled request re-enables the button, whether a variant is resolved or not.
- Malformed conditions. The `catch` at lines 162-165 cannot be reached, because `split` on a string does not throw. A non-empty condition is always parsed.

## Model

| member | source | states |
|---|---|---|
| JsString.Lower | assets/product-grid.js:157 | lower-casing keeps the length, leaves no upper-case letter, turns each capital into the character 32 code points above it, keeps every other character, and keeps which characters are whitespace |
| JsString.LowerIdempotent | assets/product-grid.js:157 | lower-casing an already lower-cased string changes nothing |
| JsString.Trim | assets/product-grid.js:157 | the trim is the infix of the input that starts at its first non-whitespace character; it neither starts nor ends with whitespace and every non-whitespace character of the input lies inside it |
| JsString.Split | assets/product-grid.js:157 | splitting on ',' gives one piece more than there are commas, no piece contains a comma, and joining the pieces with ',' gives the input back |
| JsString.SplitJoin | assets/product-grid.js:157 | split inverts join: comma-free pieces joined with ',' split back into exactly those pieces |
| JsString.SplitCommaFree | assets/product-grid.js:157 | a string without commas splits into itself alone |
| ProductGrid.GetBundleProductData | assets/product-grid.js:152-166 | null exactly when the condition attribute is absent or empty; otherwise one entry per comma-separated piece, in order, each the piece lower-cased then trimmed, and the raw `data-bundle-id` |
| ProductGrid.TrimmedLowerIsNormalized | assets/product-grid.js:157 | a lower-cased, trimmed piece has no upper-case letter and no whitespace at either end |
| ProductGrid.Normalize | assets/product-grid.js:157 | the `toLowerCase().trim()` callback yields an entry in normal form, never longer than the piece |
| ProductGrid.NormalizeBlank | assets/product-grid.js:157 | a piece becomes the empty entry exactly when it is all whitespace |
| ProductGrid.NormalizeKeepsCommaFree | assets/product-grid.js:157 | lower-casing and trimming a comma-free piece keeps it comma-free |
| ProductGrid.NormalizeFixesNormalized | assets/product-grid.js:157 | normalizing an entry that is already lower-case and trimmed leaves it as it is |
| ProductGrid.ConditionOptionsNormalized | assets/product-grid.js:152-166 | every parsed condition entry is lower-case, has no whitespace at either end and holds no comma |
| ProductGrid.ParseJoinedCondition | assets/product-grid.js:152-166 | round trip: normalized, comma-free names written into the attribute joined by ',' parse back into exactly that list with the given bundle id |
| CustomDropdown.PlaceholderText | assets/product-grid.js:210 | the placeholder is the attribute when it is present and non-empty, and "Select" otherwise; it is never empty |
| CustomDropdown.AttributeString | assets/product-grid.js:341 | `setAttribute` stores a present value verbatim and a `null` one as the string "null" |
| CustomDropdown.CopyOption | assets/product-grid.js:339-342 | one copy keeps the option's text and data-value, and its `data-value` attribute is that value as `setAttribute` writes it |
| CustomDropdown.Copies | assets/product-grid.js:337-344 | one shadow copy per light-DOM option, in order, each with that option's text and data-value, a missing data-value written as the string "null", and a click handler that passes them on |
| CustomDropdown.Dropdown.constructor | assets/product-grid.js:202-210 | a new dropdown is closed, has value "", shows the placeholder with placeholder styling, has no options and has emitted no event |
| CustomDropdown.Dropdown.CloseDropdown | assets/product-grid.js:330-333 | closed and arrow at 0deg, nothing else changed |
| CustomDropdown.Dropdown.FocusOut | assets/product-grid.js:320-333 | focus-out closes the dropdown whatever the related target is, because line 330 shadows line 324 |
| CustomDropdown.Dropdown.ToggleDropdown | assets/product-grid.js:347-350 | open flips, and the arrow is at 180deg exactly when the new state is open; the arrow agrees with the open state and the shown text and value agree with the last event |
| CustomDropdown.Dropdown.SelectOption | assets/product-grid.js:352-364 | shows the text, drops the placeholder style, ends closed at 0deg, records the value and emits exactly one change event with `{value, text}` |
| CustomDropdown.Dropdown.ClickOption | assets/product-grid.js:342 | clicking a copied option selects that option's own text and data-value |
| CustomDropdown.Dropdown.ConnectedCallback | assets/product-grid.js:335-345 | the shadow list becomes the old list followed by the copies of the light-DOM options in order, appended again on each connection |
| DynamicCard.Selection | assets/product-grid.js:37-39 | the selection is the dropdown value followed by the checked inputs' values in order |
| DynamicCard.Matches | assets/product-grid.js:51 | the `every` over a variant's own options; a variant with no options matches any selection |
| DynamicCard.MatchesIffPrefix | assets/product-grid.js:49-52 | a variant matches exactly when its options are a prefix of the selection |
| DynamicCard.FirstMatch | assets/product-grid.js:49-52 | the index of the first matching variant in data order: nothing before it matches and the variant there does; the length of the list when none matches |
| DynamicCard.Resolve | assets/product-grid.js:49-52 | no variant is found exactly when none matches; otherwise the variant found matches, and no variant earlier in the list does |
| DynamicCard.ResolveExample | assets/product-grid.js:49-52 | with variants 1 = [Red, S] and 2 = [Red, M], the selection [Red, M] resolves to variant 2, and the payload's first line is one unit of variant 2 whatever the bundle data |
| DynamicCard.PrefixMatchWins | assets/product-grid.js:49-52 | a variant [Red] listed first wins over an exact match [Red, M] for the selection [Red, M] |
| DynamicCard.Payload | assets/product-grid.js:56-77 | the item list has one line per matched variant and one per passed bundle test; the variant line comes first with quantity 1, and the bundle line comes last with the bundle id and quantity 1 |
| DynamicCard.BundleApplies | assets/product-grid.js:67 | the bundle test passes only with bundle data and with no `null` in the selection; with bundle data, an empty selection passes |
| DynamicCard.GridBundle | assets/product-grid.js:66 | bundle data is present exactly when the card sits in a product-grid whose condition attribute is present and non-empty, and it carries that grid's bundle id |
| DynamicCard.BundleLineIffApplies | assets/product-grid.js:65-77 | the payload holds a bundle line exactly when the bundle test passes, whichever variant matched |
| DynamicCard.EmptyPayload | assets/product-grid.js:56-77 | the item list is empty exactly when no variant matched and the bundle test fails |
| DynamicCard.DropdownOnlySelectionApplies | assets/product-grid.js:66-67 | with no checked inputs, the bundle test passes exactly when bundle data is present, the dropdown has a value, and that value lower-cased is one of the condition entries |
| DynamicCard.SectionIds | assets/product-grid.js:121-135 | the section ids are exactly cart-drawer, cart-icon-bubble and quick-view, in that order |
| DynamicCard.SectionsToRender | assets/product-grid.js:121-135 | three sections with distinct ids; the cart icon bubble has no selector, the drawer and quick view have one |
| DynamicCard.CompletionEffects | assets/product-grid.js:102-113 | a response that is not OK, or not JSON, causes no outward call; the dialog is closed exactly for an OK response to a card inside a product-grid that has a dialog; renderContents is called exactly for an OK response inside a product-grid on a page with a cart element; the drawer is marked exactly when, in addition, the page has a cart drawer; each call happens at most once, in the order dialog, render, drawer; no new POST is ever started |
| DynamicCard.SettleCalls | assets/product-grid.js:102-113 | the promise chain's calls, made step by step, are exactly `CompletionEffects` of the outcome |
| DynamicCard.Card.constructor | assets/product-grid.js:2-15 | the variant list is the embedded JSON, or empty without it; connection then runs the change handler, so the selection, variant, payload and button agree from the start |
| DynamicCard.Card.GetCurrentSelectedOptions | assets/product-grid.js:37-39 | `currentOptions` becomes the dropdown value followed by the checked values |
| DynamicCard.Card.GetCurrentVariant | assets/product-grid.js:49-54 | `currentVariant` becomes the first variant matching the current selection |
| DynamicCard.Card.UpdateForm | assets/product-grid.js:56-78 | `formData` is rebuilt from an empty item list into the payload of the current variant, bundle data and selection, with no sections |
| DynamicCard.Card.ToggleAddToCart | assets/product-grid.js:29-35 | the button is disabled exactly when no variant is resolved; calling again with the same variant changes nothing |
| DynamicCard.Card.OnVariantChange | assets/product-grid.js:22-27 | a change sets the selection, the variant, the payload and the button from the dropdown value and the checked inputs alone, so an identical event changes nothing more; the request state is untouched |
| DynamicCard.Card.AddToCart | assets/product-grid.js:82-101 | with no items nothing changes and no request is made; otherwise the sections become cart-drawer, cart-icon-bubble and quick-view, the arrow is hidden, the loader shown, the button disabled, and exactly one POST of the payload is issued; the selection, the variant and the payload are left as they were, so the variant stays the one the selection resolves to |
| DynamicCard.Card.ClickAddToCart | assets/product-grid.js:8 | a click on a disabled button changes nothing; an enabled one submits as AddToCart does; the selection, the variant and the payload are left as they were, so the variant stays the one the selection resolves to |
| DynamicCard.Card.CompleteRequest | assets/product-grid.js:102-118 | whatever the outcome, the arrow is shown, the loader hidden, the button re-enabled and one outstanding request is removed; the outward calls are exactly those of the outcome; the selection, the variant and the payload are left as they were, so the variant stays the one the selection resolves to |
| DynamicCard.Card.RestoreControls | assets/product-grid.js:114-118 | the `finally` step: the arrow is shown, the loader hidden, the button re-enabled, and one outstanding request is removed |
| DynamicCard.ChangeDuringRequest | assets/product-grid.js:29-35 | a change event while a request is outstanding re-enables the button, so a second click posts the same payload again and two requests are outstanding; the new card still satisfies the card invariant, so the scenario can continue |

## Left out

- JsString.Lower: lowers only ASCII A-Z and the Latin-1 capitals U+00C0-U+00DE (except U+00D7). Other scripts, and mappings that change the length (such as U+0130), are outside the model.
- Network I/O: the `fetch` to `cart/add.js` and the body `JSON.parse`. The answer is the parameter `outcome`, and the response data handed to `renderContents` is not modelled.
- The variant JSON parse (line 45): the variant list is a given sequence, or `None` when the card embeds no JSON.
- Quick view (lines 168-195): `handleClickEvent` and `handleQuickView`, with the fetch of the quick-view fragment, `DOMParser`, the `innerHTML` injection, `showModal`/`close`, and backdrop and close-button clicks (line 148). This is DOM plumbing with no logic of its own. Overlapping quick-view fetches are a question of asynchronous interleaving.
- `handleClickSelect` (lines 17-19): it forwards a click to a native select element.
- Shadow-DOM markup, CSS, the SVG, `addEventListener` wiring, `customElements.define`, the event's `bubbles`/`composed` flags and `console` logging. Delivery of a dropdown's change event to its card is not automatic in the model: the caller invokes `Card.OnVariantChange` with the dropdown.
- Optional elements reached through `?.`: the card's button, `.right-arrow` and `.loader-wrapper` are assumed present. Their initial classes, arrow visible and loader hidden, come from markup that is not part of this model.
- The `null.value` TypeError of line 38 when a card has no `custom-dropdown`: the model always reads the value of a given `Dropdown`.
- DynamicCard.CompletionEffects: records that `renderContents` is called, not which cart element (notification or drawer) receives it.
- Changes to the grid's bundle attributes after the card is built: `Card.grid` is fixed at construction, while the source re-reads the attributes on each change.
- Changes to the page's cart elements after the card is built: `Card.page` serves both lookups, while the source picks `this.cart` at construction (line 6) and looks up `cart-drawer` only when a request succeeds (line 111).
- Later mutation of a dropdown's light-DOM options. The click handler reads the original option's text and data-value at click time; without mutation these equal the copy's, which is what the model stores.
