/** The `custom-dropdown` element: a select-like widget that is closed or open,
    shows a placeholder until an option is chosen, and announces each choice
    with a bubbling `change` event carrying `{value, text}`. */
module CustomDropdown {
  import opened Wrappers

  /** The inline `transform` of the arrow icon: never set, or `rotate(<degrees>deg)`. */
  datatype Transform = Unset | Rotate(degrees: int)

  /** A light-DOM `<li>` declared by the host: its text and its `data-value`
      attribute (`None` when the attribute is missing). */
  datatype LightOption = LightOption(text: string, dataValue: Option<string>)

  /** The copy appended to the shadow list: its text, its `data-value` attribute
      as a string, and the `(text, value)` its click handler passes to `selectOption`. */
  datatype ShadowOption = ShadowOption(text: string, dataValueAttr: string, value: Option<string>)

  /** The `change` event's `detail`. */
  datatype ChangeEvent = ChangeEvent(value: Option<string>, text: string)

  /** `getAttribute('placeholder') || 'Select'`: an absent or empty attribute falls back to "Select". */
  function PlaceholderText(attr: Option<string>): (p: string)
    ensures p != ""
    ensures attr.Some? && attr.value != "" ==> p == attr.value
    ensures attr.None? || attr.value == "" ==> p == "Select"
  {
    if attr.None? || attr.value == "" then "Select" else attr.value
  }

  /** `setAttribute` turns its value into a string; `null` becomes "null". */
  function AttributeString(v: Option<string>): (r: string)
    ensures v.Some? ==> r == v.value
    ensures v.None? ==> r == "null"
  {
    if v.Some? then v.value else "null"
  }

  function CopyOption(o: LightOption): (c: ShadowOption)
    ensures c.text == o.text && c.value == o.dataValue
    ensures c.dataValueAttr == AttributeString(c.value)
  {
    ShadowOption(o.text, AttributeString(o.dataValue), o.dataValue)
  }

  /** The shadow copies of the light-DOM options: one per option, in order,
      each with the option's text and data-value; a missing data-value is
      written into the copy's attribute as "null". */
  function Copies(light: seq<LightOption>): (shadow: seq<ShadowOption>)
    ensures |shadow| == |light|
    ensures forall i :: 0 <= i < |light| ==>
      shadow[i].text == light[i].text && shadow[i].value == light[i].dataValue &&
      (light[i].dataValue.Some? ==> shadow[i].dataValueAttr == light[i].dataValue.value) &&
      (light[i].dataValue.None? ==> shadow[i].dataValueAttr == "null")
  {
    seq(|light|, i requires 0 <= i < |light| => CopyOption(light[i]))
  }

  class Dropdown {
    /** `this.value`: the chosen option's data-value. */
    var value: Option<string>
    /** `this.placeholder`. */
    const placeholder: string
    /** Text content of the `#selectedValue` span. */
    var shownText: string
    /** Whether the `#selectedValue` span still has the `placeholder` class. */
    var placeholderStyled: bool
    /** Whether the options list has the `active` class. */
    var open: bool
    var arrow: Transform
    /** The shadow `ul.options` list. */
    var optionsList: seq<ShadowOption>
    /** Every `change` event dispatched so far, oldest first. */
    var emitted: seq<ChangeEvent>

    /** The arrow is unset until first used and points down (180deg) exactly
        when the list is open. */
    ghost predicate ArrowAgrees()
      reads this
    {
      (arrow == Unset || arrow == Rotate(0) || arrow == Rotate(180)) &&
      (open <==> arrow == Rotate(180))
    }

    /** The displayed text and the value are those of the last event emitted,
        or the placeholder and "" before any choice; the placeholder style is
        kept exactly until the first choice. */
    ghost predicate ChoiceAgrees()
      reads this
    {
      (placeholderStyled <==> emitted == []) &&
      (emitted == [] ==> shownText == placeholder && value == Some("")) &&
      (emitted != [] ==> shownText == emitted[|emitted| - 1].text && value == emitted[|emitted| - 1].value)
    }

    ghost predicate Valid()
      reads this
    {
      ArrowAgrees() && ChoiceAgrees()
    }

    /** A fresh dropdown is closed, has value "" and shows the placeholder. */
    constructor (placeholderAttr: Option<string>)
      ensures Valid()
      ensures placeholder == PlaceholderText(placeholderAttr)
      ensures value == Some("") && shownText == placeholder && placeholderStyled
      ensures !open && arrow == Unset && optionsList == [] && emitted == []
    {
      value := Some("");
      placeholder := PlaceholderText(placeholderAttr);
      shownText := PlaceholderText(placeholderAttr);
      placeholderStyled := true;
      open := false;
      arrow := Unset;
      optionsList := [];
      emitted := [];
    }

    /** `closeDropdown()`: closed, arrow at 0deg, nothing else touched. */
    method CloseDropdown()
      modifies this`open, this`arrow
      ensures ArrowAgrees()
      ensures !open && arrow == Rotate(0)
    {
      open := false;
      arrow := Rotate(0);
    }

    /** The `focusout` listener. The one-argument `closeDropdown(event)` that
        would test whether focus stayed inside the element is shadowed by the
        later zero-argument definition, so the listener closes whatever the
        event's related target is. */
    method FocusOut(relatedTargetInside: bool)
      requires Valid()
      modifies this`open, this`arrow
      ensures Valid()
      ensures !open && arrow == Rotate(0)
    {
      CloseDropdown();
    }

    /** `toggleDropdown()`, bound to clicks on the arrow: flips open and closed
        and points the arrow to match. */
    method ToggleDropdown()
      requires Valid()
      modifies this`open, this`arrow
      ensures Valid()
      ensures open == !old(open)
      ensures arrow == if open then Rotate(180) else Rotate(0)
    {
      open := !open;
      arrow := if open then Rotate(180) else Rotate(0);
    }

    /** `selectOption(text, value)`: shows `text`, drops the placeholder style,
        closes, records `value` and emits exactly one change event. */
    method SelectOption(text: string, value: Option<string>)
      requires Valid()
      modifies this`shownText, this`placeholderStyled, this`open, this`arrow, this`value, this`emitted
      ensures Valid()
      ensures shownText == text && !placeholderStyled && this.value == value
      ensures !open && arrow == Rotate(0)
      ensures emitted == old(emitted) + [ChangeEvent(value, text)]
    {
      shownText := text;
      placeholderStyled := false;
      CloseDropdown();
      this.value := value;
      emitted := emitted + [ChangeEvent(value, text)];
    }

    /** A click on the `i`-th shadow option runs its handler. */
    method ClickOption(i: nat)
      requires Valid() && i < |optionsList|
      modifies this`shownText, this`placeholderStyled, this`open, this`arrow, this`value, this`emitted
      ensures Valid()
      ensures shownText == old(optionsList[i].text) && value == old(optionsList[i].value)
      ensures !placeholderStyled && !open && arrow == Rotate(0)
      ensures emitted == old(emitted) + [ChangeEvent(old(optionsList[i].value), old(optionsList[i].text))]
    {
      SelectOption(optionsList[i].text, optionsList[i].value);
    }

    /** `connectedCallback()`: appends one copy of each light-DOM option, in
        order, to the shadow list (again on every connection). */
    method ConnectedCallback(light: seq<LightOption>)
      requires Valid()
      modifies this`optionsList
      ensures Valid()
      ensures optionsList == old(optionsList) + Copies(light)
    {
      var i := 0;
      while i < |light|
        invariant 0 <= i <= |light|
        invariant optionsList == old(optionsList) + Copies(light[..i])
      {
        assert Copies(light[..i + 1]) == Copies(light[..i]) + [CopyOption(light[i])];
        optionsList := optionsList + [CopyOption(light[i])];
        i := i + 1;
      }
      assert light[..i] == light;
    }
  }
}
