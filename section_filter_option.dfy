/** `SectionFilterOptionComponent`: one filter of the section filter card. Its configuration
    object is shared with the card, which reads `checked` and `inputValue` when it builds
    the filter; the component switches it on and off, sets its text, resets it, and offers
    the options that contain the typed text. */
module SectionFilterOption {
  import opened Seqs
  import opened JsText

  /** `SectionFilterOptionConfig`. */
  class FilterConfig {
    const property: string
    const labelText: string
    var checked: bool
    var options: seq<string>
    var inputValue: string

    constructor(property: string, labelText: string, checked: bool, inputValue: string)
      ensures this.property == property && this.labelText == labelText && this.checked == checked
      ensures this.inputValue == inputValue && options == []
    {
      this.property := property;
      this.labelText := labelText;
      this.checked := checked;
      this.inputValue := inputValue;
      options := [];
    }
  }

  /** The value of a table cell click: `string | number`. */
  datatype CellValue = TextValue(text: string) | NumberValue(n: int)

  /** `bundle.value.toString()`. */
  function CellText(v: CellValue): string {
    match v
    case TextValue(text) => text
    case NumberValue(n) => IntToString(n)
  }

  /** `filter(value)`: the options whose lower-case form contains the lower-case value, in
      their order. */
  function FilterOptions(options: seq<string>, value: string): (r: seq<string>)
    ensures IsSubsequence(r, options)
    ensures forall i :: 0 <= i < |options| ==>
              (options[i] in r <==> Contains(ToLower(options[i]), ToLower(value)))
  {
    var matching := (option: string) => Contains(ToLower(option), ToLower(value));
    FilterSubsequence(options, matching);
    Filter(options, matching)
  }

  /** Every option contains the empty text, so an empty value offers all options. */
  lemma FilterEmptyValue(options: seq<string>)
    ensures FilterOptions(options, "") == options
  {
    forall option: string ensures Contains(ToLower(option), "") {
      ContainsEmpty(ToLower(option));
    }
    FilterAll(options, (option: string) => Contains(ToLower(option), ToLower("")));
  }

  class SectionFilterOption {
    const config: FilterConfig
    /** Whether the text input accepts typing. */
    var inputEnabled: bool
    /** How many times the highlight animation was started. */
    var highlights: nat
    /** How many `update` casts were made. */
    var updates: nat

    /** `ngOnInit`: the input is disabled when the filter is off. */
    constructor(config: FilterConfig)
      ensures this.config == config && inputEnabled == config.checked && highlights == 0 && updates == 0
    {
      this.config := config;
      inputEnabled := config.checked;
      highlights := 0;
      updates := 0;
    }

    /** `slideToggleChange(checked)`. */
    method SlideToggleChange(checked: bool)
      modifies this, config
      ensures config.checked == checked && inputEnabled == checked && updates == old(updates) + 1
      ensures config.inputValue == old(config.inputValue) && config.options == old(config.options)
      ensures highlights == old(highlights)
    {
      config.checked := checked;
      inputEnabled := checked;
      updates := updates + 1;
    }

    /** `valueChanges(value)`: typing sets the text. */
    method ValueChanges(value: string)
      modifies this, config
      ensures config.inputValue == value && updates == old(updates) + 1
      ensures config.checked == old(config.checked) && config.options == old(config.options)
      ensures inputEnabled == old(inputEnabled) && highlights == old(highlights)
    {
      config.inputValue := value;
      updates := updates + 1;
    }

    /** `formFiledClick`: a click on the input switches an unchecked filter on. */
    method FormFiledClick()
      modifies this, config
      ensures config.checked
      ensures old(config.checked) ==> updates == old(updates) && inputEnabled == old(inputEnabled)
      ensures !old(config.checked) ==> inputEnabled && updates == old(updates) + 1
      ensures config.inputValue == old(config.inputValue) && config.options == old(config.options)
      ensures highlights == old(highlights)
    {
      if !config.checked {
        SlideToggleChange(true);
      }
    }

    /** `setInputValue(bundle)`: a click on a table cell of this filter's property switches the
        filter on with the cell's text; other cells are ignored. */
    method SetInputValue(property: string, value: CellValue)
      modifies this, config
      ensures property != config.property ==>
                config.checked == old(config.checked) && config.inputValue == old(config.inputValue)
                && inputEnabled == old(inputEnabled) && highlights == old(highlights) && updates == old(updates)
      ensures property == config.property ==>
                config.checked && inputEnabled && config.inputValue == CellText(value)
                && highlights == old(highlights) + 1 && updates == old(updates) + 2
      ensures config.options == old(config.options)
    {
      if config.property != property {
        return;
      }
      SlideToggleChange(true);
      ValueChanges(CellText(value));
      highlights := highlights + 1;
    }

    /** `reset`: the filter ends off and empty; it flashes only if it was on or had text. */
    method Reset()
      modifies this, config
      ensures !config.checked && config.inputValue == "" && !inputEnabled
      ensures highlights == old(highlights) + (if old(config.checked) || old(config.inputValue) != "" then 1 else 0)
      ensures updates == old(updates) + 1 && config.options == old(config.options)
    {
      if config.checked || config.inputValue != "" {
        highlights := highlights + 1;
      }
      inputEnabled := false;
      config.checked := false;
      config.inputValue := "";
      updates := updates + 1;
    }
  }
}
