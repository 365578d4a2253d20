/** The `dynamic-card` element: it reads the shopper's option selection,
    resolves it against the card's variant list, keeps the add-to-cart payload
    and button in step with it, and submits the payload to the cart endpoint. */
module DynamicCard {
  import opened Wrappers
  import opened JsString
  import opened ProductGrid
  import opened CustomDropdown

  /** One entry of the card's embedded variant JSON. */
  datatype Variant = Variant(id: int, options: seq<string>)

  /** A line of `formData.items`: `{id, quantity}` for the variant, and
      `{id: bundleId, quantity, properties: {_bunlde: true}}` for the bundle. */
  datatype LineItem =
    | VariantLine(id: int, quantity: int)
    | BundleLine(bundleId: Option<string>, quantity: int)

  /** An entry of `getSectionsToRender()`. */
  datatype Section = Section(id: string, selector: Option<string>)

  /** The JSON body posted to `cart/add.js`. */
  datatype CartPayload = CartPayload(items: seq<LineItem>, sections: seq<string>)

  /** What a card does outside itself, in order: post a payload to the cart
      endpoint, close the grid's dialog, hand the response to the cart element's
      `renderContents`, remove `is-empty` from the cart drawer. */
  datatype Effect = PostCart(body: CartPayload) | CloseDialog | RenderContents | MarkDrawerFilled

  /** How the cart request ends: the fetch rejects, the status is not OK, the
      body is not JSON, or an OK response with a JSON body. */
  datatype Outcome = Rejected | NotOk | BadJson | Ok

  /** The enclosing `product-grid`: its two bundle attributes and whether it holds a `dialog`. */
  datatype GridAttrs = GridAttrs(bundleCondition: Option<string>, bundleId: Option<string>, hasDialog: bool)

  /** Which cart elements the page holds; the card's `cart` is the notification or else the drawer. */
  datatype Page = Page(hasNotification: bool, hasDrawer: bool)
  {
    predicate CartPresent() { hasNotification || hasDrawer }
  }

  function Lift(xs: seq<string>): (r: seq<Option<string>>)
    ensures |r| == |xs| && forall i :: 0 <= i < |xs| ==> r[i] == Some(xs[i])
  {
    seq(|xs|, i requires 0 <= i < |xs| => Some(xs[i]))
  }

  /** `currentOptions`: the dropdown's value first, then each checked input's value in order. */
  function Selection(dropdownValue: Option<string>, checked: seq<string>): (sel: seq<Option<string>>)
    ensures |sel| == |checked| + 1 && sel[0] == dropdownValue
    ensures sel[1..] == Lift(checked)
  {
    [dropdownValue] + Lift(checked)
  }

  /** `variant.options.every((option, index) => currentOptions[index] === option)`:
      an index past the end of the selection reads `undefined`, which equals no option. */
  predicate Matches(v: Variant, sel: seq<Option<string>>)
    ensures v.options == [] ==> Matches(v, sel)
  {
    forall i :: 0 <= i < |v.options| ==> i < |sel| && sel[i] == Some(v.options[i])
  }

  /** A variant matches exactly when its options are a prefix of the selection:
      selection entries beyond the variant's option count are ignored. */
  lemma {:induction false} MatchesIffPrefix(v: Variant, sel: seq<Option<string>>)
    ensures Matches(v, sel) <==> Lift(v.options) <= sel
  {
    var n := |v.options|;
    if Matches(v, sel) {
      if n > 0 {
        var last := v.options[n - 1];
        assert n - 1 < |sel| && sel[n - 1] == Some(last);
      }
      assert Lift(v.options) == sel[..n];
    }
    if Lift(v.options) <= sel {
      forall i | 0 <= i < n ensures i < |sel| && sel[i] == Some(v.options[i]) {
        assert sel[i] == Lift(v.options)[i];
      }
    }
  }

  /** Index of the first variant, in data order, that matches; `|variants|` when none does. */
  function FirstMatch(variants: seq<Variant>, sel: seq<Option<string>>): (k: nat)
    ensures k <= |variants|
    ensures forall j :: 0 <= j < k ==> !Matches(variants[j], sel)
    ensures k < |variants| ==> Matches(variants[k], sel)
  {
    if variants == [] || Matches(variants[0], sel) then 0
    else 1 + FirstMatch(variants[1..], sel)
  }

  /** `getcurrentVariant()`'s `find`: absent exactly when no variant matches,
      otherwise a matching variant that no earlier variant precedes in matching. */
  function Resolve(variants: seq<Variant>, sel: seq<Option<string>>): (r: Option<Variant>)
    ensures r.None? <==> forall j :: 0 <= j < |variants| ==> !Matches(variants[j], sel)
    ensures r.Some? ==>
      (exists k :: 0 <= k < |variants| && variants[k] == r.value &&
         Matches(r.value, sel) && forall j :: 0 <= j < k ==> !Matches(variants[j], sel))
  {
    var k := FirstMatch(variants, sel);
    if k < |variants| then Some(variants[k]) else None
  }

  /** The bundle data a card sees: `closest('product-grid')?.getBundleProductData()`. */
  function GridBundle(grid: Option<GridAttrs>): (r: Option<BundleData>)
    ensures r.Some? <==> grid.Some? && grid.value.bundleCondition.Some? && grid.value.bundleCondition.value != ""
    ensures r.Some? ==> r.value.bundleId == grid.value.bundleId
  {
    if grid.None? then None else GetBundleProductData(grid.value.bundleCondition, grid.value.bundleId)
  }

  /** The bundle test of `updateForm()`: bundle data is present and every
      selected value, lower-cased, is one of the condition entries. A `null`
      value lower-cases to `undefined`, which no entry equals. */
  predicate BundleApplies(bundle: Option<BundleData>, sel: seq<Option<string>>)
    ensures BundleApplies(bundle, sel) ==> bundle.Some? && forall i :: 0 <= i < |sel| ==> sel[i].Some?
    ensures bundle.Some? && sel == [] ==> BundleApplies(bundle, sel)
  {
    bundle.Some? &&
    forall i :: 0 <= i < |sel| ==> sel[i].Some? && Lower(sel[i].value) in bundle.value.conditionOptions
  }

  /** `formData.items` as `updateForm()` builds it from an empty list: the
      variant line first if a variant matched, then the bundle line if the bundle
      test passes. */
  function Payload(variant: Option<Variant>, bundle: Option<BundleData>, sel: seq<Option<string>>): (items: seq<LineItem>)
    ensures |items| == (if variant.Some? then 1 else 0) + (if BundleApplies(bundle, sel) then 1 else 0)
    ensures variant.Some? ==> items[0] == VariantLine(variant.value.id, 1)
    ensures BundleApplies(bundle, sel) ==> items[|items| - 1] == BundleLine(bundle.value.bundleId, 1)
  {
    (if variant.Some? then [VariantLine(variant.value.id, 1)] else [])
    + (if BundleApplies(bundle, sel) then [BundleLine(bundle.value.bundleId, 1)] else [])
  }

  predicate HasBundleLine(items: seq<LineItem>)
  {
    exists i :: 0 <= i < |items| && items[i].BundleLine?
  }

  /** The payload carries a bundle line exactly when the bundle test passes,
      whether or not a variant matched. */
  lemma BundleLineIffApplies(variant: Option<Variant>, bundle: Option<BundleData>, sel: seq<Option<string>>)
    ensures HasBundleLine(Payload(variant, bundle, sel)) <==> BundleApplies(bundle, sel)
  {
    var items := Payload(variant, bundle, sel);
    if BundleApplies(bundle, sel) {
      assert items[|items| - 1].BundleLine?;
    }
  }

  /** The payload is empty exactly when no variant matched and the bundle test fails. */
  lemma EmptyPayload(variant: Option<Variant>, bundle: Option<BundleData>, sel: seq<Option<string>>)
    ensures Payload(variant, bundle, sel) == [] <==> variant.None? && !BundleApplies(bundle, sel)
  {
  }

  /** With no checked inputs the selection is the dropdown value alone, and the
      bundle test passes exactly when bundle data is present and that value,
      lower-cased, is a condition entry. */
  lemma DropdownOnlySelectionApplies(bundle: Option<BundleData>, dropdownValue: Option<string>)
    ensures BundleApplies(bundle, Selection(dropdownValue, [])) <==>
      bundle.Some? && dropdownValue.Some? && Lower(dropdownValue.value) in bundle.value.conditionOptions
  {
    var sel := Selection(dropdownValue, []);
    assert sel == [dropdownValue];
  }

  /** The selection [Red, M] against variants 1 = [Red, S] and 2 = [Red, M]
      resolves to variant 2, and the payload's first line is variant 2's,
      whatever the bundle data. */
  lemma ResolveExample(bundle: Option<BundleData>)
    ensures Resolve([Variant(1, ["Red", "S"]), Variant(2, ["Red", "M"])], [Some("Red"), Some("M")])
      == Some(Variant(2, ["Red", "M"]))
    ensures Payload(Resolve([Variant(1, ["Red", "S"]), Variant(2, ["Red", "M"])], [Some("Red"), Some("M")]),
      bundle, [Some("Red"), Some("M")])[0] == VariantLine(2, 1)
  {
    var sel := [Some("Red"), Some("M")];
    assert !Matches(Variant(1, ["Red", "S"]), sel) by {
      assert sel[1] != Some("S");
    }
  }

  /** A variant whose options are a strict prefix of the selection still
      matches, and being first in data order it wins over an exact match. */
  lemma PrefixMatchWins()
    ensures Resolve([Variant(1, ["Red"]), Variant(2, ["Red", "M"])], [Some("Red"), Some("M")])
      == Some(Variant(1, ["Red"]))
  {
  }

  function SectionsToRender(): (sections: seq<Section>)
    ensures |sections| == 3
    ensures forall i, j :: 0 <= i < j < |sections| ==> sections[i].id != sections[j].id
    ensures sections[1].selector.None? && sections[0].selector.Some? && sections[2].selector.Some?
  {
    [Section("cart-drawer", Some("#CartDrawer")),
     Section("cart-icon-bubble", None),
     Section("quick-view", Some(".quick-card"))]
  }

  /** `getSectionsToRender().map((section) => section.id)`. */
  function SectionIds(): (ids: seq<string>)
    ensures ids == ["cart-drawer", "cart-icon-bubble", "quick-view"]
  {
    var sections := SectionsToRender();
    seq(|sections|, i requires 0 <= i < |sections| => sections[i].id)
  }

  /** Position of a call in the success handler: the dialog is closed first,
      then `renderContents` runs, then the drawer is marked. */
  function HandlerStep(e: Effect): nat
  {
    match e
    case CloseDialog => 0
    case RenderContents => 1
    case MarkDrawerFilled => 2
    case PostCart(_) => 3
  }

  /** The outward calls made when the cart request settles. Only an OK response
      with a JSON body reaches the success handler; there, a card outside any
      `product-grid` throws before anything else happens, and a page without a
      cart element throws after the dialog is closed. Each call is made at most
      once and in handler order. */
  function CompletionEffects(outcome: Outcome, grid: Option<GridAttrs>, page: Page): (fx: seq<Effect>)
    ensures outcome != Ok ==> fx == []
    ensures CloseDialog in fx <==> outcome == Ok && grid.Some? && grid.value.hasDialog
    ensures RenderContents in fx <==> outcome == Ok && grid.Some? && page.CartPresent()
    ensures MarkDrawerFilled in fx <==> outcome == Ok && grid.Some? && page.CartPresent() && page.hasDrawer
    ensures forall i, j :: 0 <= i < j < |fx| ==> HandlerStep(fx[i]) < HandlerStep(fx[j])
    ensures forall i :: 0 <= i < |fx| ==> !fx[i].PostCart?
  {
    if outcome != Ok || grid.None? then []
    else
      (if grid.value.hasDialog then [CloseDialog] else [])
      + (if !page.CartPresent() then []
         else [RenderContents] + (if page.hasDrawer then [MarkDrawerFilled] else []))
  }

  /** The promise chain after the POST, step by step: an OK JSON response
      reaches the success handler, which closes the grid's dialog, renders the
      cart and clears the drawer's empty flag, stopping at the first throw. */
  method SettleCalls(outcome: Outcome, grid: Option<GridAttrs>, page: Page) returns (calls: seq<Effect>)
    ensures calls == CompletionEffects(outcome, grid, page)
  {
    calls := [];
    if outcome == Ok && grid.Some? {
      if grid.value.hasDialog {
        calls := calls + [CloseDialog];
      }
      if page.CartPresent() {
        calls := calls + [RenderContents];
        if page.hasDrawer {
          calls := calls + [MarkDrawerFilled];
        }
      }
    }
  }

  class Card {
    /** `variantsData`, parsed once. */
    const variants: seq<Variant>
    /** The enclosing `product-grid`, if any. */
    const grid: Option<GridAttrs>
    const page: Page
    /** `currentOptions`. */
    var options: seq<Option<string>>
    /** `currentVariant`. */
    var variant: Option<Variant>
    /** `formData.items`. */
    var items: seq<LineItem>
    /** `formData.sections`, absent until a submission sets it. */
    var sections: Option<seq<string>>
    /** `sections_url`. */
    var sectionsUrl: Option<string>
    /** Whether the add-to-cart button has the `disabled` attribute. */
    var buttonDisabled: bool
    /** Whether `.right-arrow` has the `hidden` class. */
    var arrowHidden: bool
    /** Whether `.loader-wrapper` has the `hidden` class. */
    var loaderHidden: bool
    /** Cart requests issued and not yet settled. */
    var pending: nat
    /** Outward calls made so far, oldest first. */
    var effects: seq<Effect>

    /** The items are the payload built from the current variant and
        selection, and attached sections are always the card's section ids.
        (That the variant is the one the selection resolves to is stated by the
        methods that set it; the others leave it and the selection unchanged.) */
    ghost predicate Valid()
      reads this
    {
      items == Payload(variant, GridBundle(grid), options) &&
      (sections.Some? ==> sections.value == SectionIds())
    }

    /** The variant is the one the current selection resolves to. */
    ghost predicate Resolved()
      reads this
    {
      variant == Resolve(variants, options)
    }

    /** Construction followed by `connectedCallback()`, which runs `onVariantChange()`.
        The variant list is the embedded JSON, or empty when there is none; the
        arrow starts visible and the loader hidden, as the card's markup has them. */
    constructor (variantsJson: Option<seq<Variant>>, grid: Option<GridAttrs>, page: Page,
                 dropdown: Dropdown, checked: seq<string>)
      ensures Valid()
      ensures variants == (if variantsJson.Some? then variantsJson.value else [])
      ensures this.grid == grid && this.page == page
      ensures options == Selection(dropdown.value, checked)
      ensures Resolved()
      ensures buttonDisabled == variant.None?
      ensures !arrowHidden && loaderHidden && pending == 0 && effects == []
      ensures sections == None && sectionsUrl == None
    {
      variants := if variantsJson.Some? then variantsJson.value else [];
      this.grid := grid;
      this.page := page;
      options := [];
      variant := None;
      items := [];
      sections := None;
      sectionsUrl := None;
      buttonDisabled := false;
      arrowHidden := false;
      loaderHidden := true;
      pending := 0;
      effects := [];
      new;
      OnVariantChange(dropdown, checked);
    }

    /** `getCurrentSelectedOptions()`. */
    method GetCurrentSelectedOptions(dropdown: Dropdown, checked: seq<string>)
      modifies this`options
      ensures options == Selection(dropdown.value, checked)
    {
      options := [dropdown.value] + Lift(checked);
    }

    /** `getcurrentVariant()`. */
    method GetCurrentVariant()
      modifies this`variant
      ensures variant == Resolve(variants, options)
    {
      variant := Resolve(variants, options);
    }

    /** `updateForm()`: a fresh `formData` whose item list is pushed to in turn. */
    method UpdateForm()
      modifies this`items, this`sections
      ensures items == Payload(variant, GridBundle(grid), options)
      ensures sections == None
    {
      items := [];
      sections := None;
      if variant.Some? {
        items := items + [VariantLine(variant.value.id, 1)];
      }
      assert items == if variant.Some? then [VariantLine(variant.value.id, 1)] else [];
      var bundle := GridBundle(grid);
      if BundleApplies(bundle, options) {
        items := items + [BundleLine(bundle.value.bundleId, 1)];
      }
    }

    /** `toggleAddTocart()`: disabled exactly when no variant is resolved; a
        second call with the same variant leaves the button as it is. */
    method ToggleAddToCart()
      modifies this`buttonDisabled
      ensures buttonDisabled == variant.None?
    {
      if variant.Some? {
        buttonDisabled := false;
      } else {
        buttonDisabled := true;
      }
    }

    /** `onVariantChange()`, run on every `change` event that reaches the card
        and on connection. The new state depends only on the dropdown value and
        the checked inputs, so repeating an identical event changes nothing more. */
    method OnVariantChange(dropdown: Dropdown, checked: seq<string>)
      modifies this
      ensures Valid()
      ensures options == Selection(dropdown.value, checked)
      ensures Resolved()
      ensures buttonDisabled == variant.None?
      ensures sections == None
      ensures sectionsUrl == old(sectionsUrl) && arrowHidden == old(arrowHidden)
      ensures loaderHidden == old(loaderHidden) && pending == old(pending) && effects == old(effects)
    {
      GetCurrentSelectedOptions(dropdown, checked);
      GetCurrentVariant();
      UpdateForm();
      ToggleAddToCart();
    }

    /** `addTocart()` up to the point where the request is in flight. With no
        items nothing changes and no request is made. Otherwise the sections are
        attached, the arrow hidden, the loader shown, the button disabled and one
        request posted with the current payload. */
    method AddToCart()
      requires Valid() && Resolved()
      modifies this`sections, this`sectionsUrl, this`arrowHidden, this`loaderHidden, this`buttonDisabled, this`pending, this`effects
      ensures Valid() && Resolved()
      ensures old(items) == [] ==> unchanged(this)
      ensures old(items) != [] ==>
        sections == Some(SectionIds()) && sectionsUrl == Some("/product") &&
        arrowHidden && !loaderHidden && buttonDisabled && pending == old(pending) + 1 &&
        effects == old(effects) + [PostCart(CartPayload(items, SectionIds()))]
      ensures options == old(options) && variant == old(variant) && items == old(items)
    {
      if items == [] {
        return;
      }
      sections := Some(SectionIds());
      sectionsUrl := Some("/product");
      arrowHidden := true;
      loaderHidden := false;
      buttonDisabled := true;
      effects := effects + [PostCart(CartPayload(items, sections.value))];
      pending := pending + 1;
    }

    /** A click on the add-to-cart button. A disabled button delivers no click,
        which is the lock that keeps a second request from starting while one is
        outstanding. */
    method ClickAddToCart()
      requires Valid() && Resolved()
      modifies this`sections, this`sectionsUrl, this`arrowHidden, this`loaderHidden, this`buttonDisabled, this`pending, this`effects
      ensures Valid() && Resolved()
      ensures old(buttonDisabled) || old(items) == [] ==> unchanged(this)
      ensures !old(buttonDisabled) && old(items) != [] ==>
        sections == Some(SectionIds()) && sectionsUrl == Some("/product") &&
        buttonDisabled && arrowHidden && !loaderHidden && pending == old(pending) + 1 &&
        effects == old(effects) + [PostCart(CartPayload(items, SectionIds()))]
      ensures options == old(options) && variant == old(variant) && items == old(items)
    {
      if !buttonDisabled {
        AddToCart();
      }
    }

    /** The request settles. The success handler's calls happen only for an OK
        response; in every case the `finally` block shows the arrow, hides the
        loader and re-enables the button. */
    method CompleteRequest(outcome: Outcome)
      requires Valid() && Resolved() && pending > 0
      modifies this`arrowHidden, this`loaderHidden, this`buttonDisabled, this`pending, this`effects
      ensures Valid() && Resolved()
      ensures pending == old(pending) - 1
      ensures !buttonDisabled && !arrowHidden && loaderHidden
      ensures effects == old(effects) + CompletionEffects(outcome, grid, page)
      ensures options == old(options) && variant == old(variant) && items == old(items)
      ensures sections == old(sections) && sectionsUrl == old(sectionsUrl)
    {
      var calls := SettleCalls(outcome, grid, page);
      effects := effects + calls;
      RestoreControls();
    }

    /** The `finally` block: the arrow shown, the loader hidden, the button
        re-enabled, and the request no longer outstanding. */
    method RestoreControls()
      requires pending > 0
      modifies this`arrowHidden, this`loaderHidden, this`buttonDisabled, this`pending
      ensures !buttonDisabled && !arrowHidden && loaderHidden
      ensures pending == old(pending) - 1
    {
      arrowHidden := false;
      loaderHidden := true;
      buttonDisabled := false;
      pending := pending - 1;
    }
  }

  /** A change event that arrives while a request is outstanding runs
      `toggleAddTocart()` again, which re-enables the button when a variant is
      resolved: a second request starts before the first settles. */
  method ChangeDuringRequest(dropdown: Dropdown) returns (card: Card)
    requires dropdown.value == Some("Red")
    ensures fresh(card) && card.Valid() && card.Resolved()
    ensures card.pending == 2 && card.buttonDisabled
    ensures card.effects == [PostCart(CartPayload([VariantLine(7, 1)], SectionIds())),
                             PostCart(CartPayload([VariantLine(7, 1)], SectionIds()))]
  {
    var page := Page(false, true);
    card := new Card(Some([Variant(7, ["Red"])]), None, page, dropdown, []);
    assert Matches(Variant(7, ["Red"]), card.options);
    assert card.items == [VariantLine(7, 1)];
    card.ClickAddToCart();
    assert card.pending == 1 && card.buttonDisabled;
    card.OnVariantChange(dropdown, []);
    assert Matches(Variant(7, ["Red"]), card.options);
    assert !card.buttonDisabled && card.items == [VariantLine(7, 1)];
    card.ClickAddToCart();
  }
}
