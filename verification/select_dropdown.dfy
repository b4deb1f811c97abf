/**
 * The controlled dropdown: it shows the label of the option whose value
 * equals its `value` prop (or a placeholder), marks that row in the picker,
 * and reports a pick only through `onChange`, closing the picker.
 */
module SelectDropdown {
  import opened Wrappers

  /** An option value: `string | number` (class ids are numbers, user types strings). */
  datatype Value = Str(s: string) | Num(n: int)

  /** One option; the source calls the first field `label`. */
  datatype SelectOption = SelectOption(labelText: string, value: Value)

  const DefaultPlaceholder := "Select an option"

  /** `item.value === value`; a `null` value equals no option. */
  predicate IsSelected(item: SelectOption, value: Option<Value>) {
    value == Some(item.value)
  }

  /** The index `options.find` stops at: the first option whose value equals `value`. */
  function FindIndex(options: seq<SelectOption>, value: Option<Value>): (r: Option<nat>)
    ensures r.None? <==> forall k :: 0 <= k < |options| ==> !IsSelected(options[k], value)
    ensures r.Some? ==> (r.value < |options| && IsSelected(options[r.value], value)
      && forall j :: 0 <= j < r.value ==> !IsSelected(options[j], value))
  {
    if options == [] then None
    else if IsSelected(options[0], value) then Some(0)
    else
      match FindIndex(options[1..], value)
      case None => None
      case Some(k) => Some(k + 1)
  }

  /** `options.find(o => o.value === value)`. */
  function Find(options: seq<SelectOption>, value: Option<Value>): (r: Option<SelectOption>)
    ensures r.Some? ==> r.value in options && IsSelected(r.value, value)
  {
    match FindIndex(options, value)
    case None => None
    case Some(k) => Some(options[k])
  }

  /** The trigger's text: the selected option's label, or the placeholder. */
  function TriggerText(options: seq<SelectOption>, value: Option<Value>, placeholder: string): string {
    match Find(options, value)
    case Some(o) => o.labelText
    case None => placeholder
  }

  /** The trigger shows the placeholder styling exactly when no option carries the value. */
  lemma PlaceholderWhenNoMatch(options: seq<SelectOption>, value: Option<Value>)
    ensures Find(options, value).None? <==> forall k :: 0 <= k < |options| ==> !IsSelected(options[k], value)
  {
  }

  /** The trigger shows the label of the first option carrying the value. */
  lemma TriggerShowsFirstMatch(options: seq<SelectOption>, value: Option<Value>, placeholder: string, k: nat)
    requires k < |options| && IsSelected(options[k], value)
    requires forall j :: 0 <= j < k ==> !IsSelected(options[j], value)
    ensures TriggerText(options, value, placeholder) == options[k].labelText
  {
  }

  /** Every marked row carries the same value: the one the trigger's label belongs to. */
  lemma MarkedRowsAgree(options: seq<SelectOption>, value: Option<Value>, j: nat, k: nat)
    requires j < |options| && k < |options|
    requires IsSelected(options[j], value) && IsSelected(options[k], value)
    ensures options[j].value == options[k].value
    ensures Find(options, value).Some? && Find(options, value).value.value == options[k].value
  {
  }

  /** With no value chosen the placeholder is shown and no row is marked. */
  lemma NullValueShowsPlaceholder(options: seq<SelectOption>, placeholder: string)
    ensures TriggerText(options, None, placeholder) == placeholder
    ensures forall k :: 0 <= k < |options| ==> !IsSelected(options[k], None)
  {
  }

  /** The component: its props are constants, `open` is its only state, `changes` the `onChange` calls. */
  class Dropdown {
    const options: seq<SelectOption>
    const value: Option<Value>
    const placeholder: string
    var open: bool
    var changes: seq<Value>

    constructor (options: seq<SelectOption>, value: Option<Value>, placeholder: Option<string>)
      ensures this.options == options && this.value == value
      ensures this.placeholder == placeholder.GetOr(DefaultPlaceholder)
      ensures !open && changes == []
    {
      this.options := options;
      this.value := value;
      this.placeholder := placeholder.GetOr(DefaultPlaceholder);
      open := false;
      changes := [];
    }

    /** Tapping the trigger opens the picker. */
    method PressTrigger()
      modifies this
      ensures open && changes == old(changes)
    {
      open := true;
    }

    /** Tapping the overlay or the close button shuts the picker. */
    method Dismiss()
      requires open
      modifies this
      ensures !open && changes == old(changes)
    {
      open := false;
    }

    /** Tapping row `k` reports exactly that row's value and shuts the picker; `value` is left to the parent. */
    method Pick(k: nat)
      requires open && k < |options|
      modifies this
      ensures !open && changes == old(changes) + [options[k].value]
    {
      changes := changes + [options[k].value];
      open := false;
    }

    /** The rows of the open picker with their "selected" marks. */
    function Rows(): (rows: seq<(string, bool)>)
      ensures |rows| == |options|
      ensures forall k :: 0 <= k < |options| ==> rows[k].0 == options[k].labelText
      ensures forall k :: 0 <= k < |options| ==> (rows[k].1 <==> value == Some(options[k].value))
    {
      seq(|options|, k requires 0 <= k < |options| => (options[k].labelText, IsSelected(options[k], value)))
    }
  }
}
