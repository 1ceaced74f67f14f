/**
 * `validateField` of the form preview: the first error message a field's
 * current value produces, or none.
 *
 * The regular-expression test of a `pattern` is a parameter: `matches(p, v)`
 * stands for `new RegExp(p).test(v)`.
 */
module Validation {
  import opened Wrappers
  import opened JsValues
  import opened Schema

  const RequiredMessage := "This field is required"
  const PatternMessage := "Value does not match the required pattern"
  const SelectOneMessage := "Please select an option"
  const SelectSomeMessage := "Please select at least one option"

  function MinMessage(n: int): string {
    "Minimum " + IntToString(n) + " characters required"
  }

  function MaxMessage(n: int): string {
    "Maximum " + IntToString(n) + " characters allowed"
  }

  /** `!value || value.length === 0` */
  predicate Missing(value: Value) {
    !Truthy(value) || Get(value, "length") == Num(0)
  }

  /** `value.length < n`; a value without a numeric length compares false. */
  predicate ShorterThan(value: Value, n: int) {
    Get(value, "length").Num? && Get(value, "length").n < n
  }

  /** `value.length > n` */
  predicate LongerThan(value: Value, n: int) {
    Get(value, "length").Num? && Get(value, "length").n > n
  }

  /** The messages `validateField` can produce for a field. */
  predicate IsMessageFor(field: Node, m: string) {
    m == RequiredMessage || m == MinMessage(field.minLength) || m == MaxMessage(field.maxLength) ||
    m == PatternMessage || m == SelectOneMessage || m == SelectSomeMessage
  }

  /**
   * The rules in the order the source checks them; a bound of 0 and an empty pattern
   * are absent. The selection messages of dropdown, radio and checkbox are written as
   * the source has them even though the required rule above always answers first.
   */
  function ValidateField(field: Node, value: Value, matches: (string, Value) -> bool): (r: Option<string>)
    ensures field.disabled ==> r == None
    ensures !field.disabled && field.required && Missing(value) ==> r == Some(RequiredMessage)
    ensures r.Some? ==> IsMessageFor(field, r.value)
    ensures !field.required && !field.kind.Text? ==> r == None
  {
    if field.disabled then None
    else if field.required && Missing(value) then Some(RequiredMessage)
    else if field.kind.Text? && field.minLength != 0 && Truthy(value) && ShorterThan(value, field.minLength) then
      Some(MinMessage(field.minLength))
    else if field.kind.Text? && field.maxLength != 0 && Truthy(value) && LongerThan(value, field.maxLength) then
      Some(MaxMessage(field.maxLength))
    else if field.kind.Text? && field.pattern != "" && Truthy(value) && !matches(field.pattern, value) then
      Some(PatternMessage)
    else if field.kind.Dropdown? && field.required && !Truthy(value) then Some(SelectOneMessage)
    else if field.kind.Dropdown? && field.allowMultiple && value.Arr? && field.required && KeyCount(value) == 0 then
      Some(SelectSomeMessage)
    else if field.kind.Radio? && field.required && !Truthy(value) then Some(SelectOneMessage)
    else if field.kind.Checkbox? && field.required && Missing(value) then Some(SelectSomeMessage)
    else None
  }

  /**
   * For dropdown, radio and checkbox fields the selection messages never appear: the
   * only possible error is the generic required message.
   */
  lemma SelectionMessagesUnreachable(field: Node, value: Value, matches: (string, Value) -> bool)
    requires field.kind.Dropdown? || field.kind.Radio? || field.kind.Checkbox?
    ensures ValidateField(field, value, matches) == None || ValidateField(field, value, matches) == Some(RequiredMessage)
    ensures ValidateField(field, value, matches) == Some(RequiredMessage) <==> !field.disabled && field.required && Missing(value)
  {
    if value.Arr? && KeyCount(value) == 0 {
      assert Get(value, "length") == Num(0);
    }
  }

  /** A text value shorter than a set minimum gets the minimum message, once required is satisfied. */
  lemma TextTooShort(field: Node, text: string, matches: (string, Value) -> bool)
    requires field.kind.Text? && !field.disabled && text != ""
    requires field.minLength != 0 && Utf16Length(text) < field.minLength
    ensures ValidateField(field, Str(text), matches) == Some(MinMessage(field.minLength))
  {
  }

  /** A long enough text value over a set maximum gets the maximum message. */
  lemma TextTooLong(field: Node, text: string, matches: (string, Value) -> bool)
    requires field.kind.Text? && !field.disabled && text != ""
    requires field.minLength == 0 || Utf16Length(text) >= field.minLength
    requires field.maxLength != 0 && Utf16Length(text) > field.maxLength
    ensures ValidateField(field, Str(text), matches) == Some(MaxMessage(field.maxLength))
  {
  }

  /**
   * A non-empty text value within both bounds that the pattern accepts is valid; in
   * particular a value of exactly `minLength` characters passes the minimum rule.
   */
  lemma TextWithinBounds(field: Node, text: string, matches: (string, Value) -> bool)
    requires field.kind.Text? && text != ""
    requires field.minLength == 0 || Utf16Length(text) >= field.minLength
    requires field.maxLength == 0 || Utf16Length(text) <= field.maxLength
    requires field.pattern == "" || matches(field.pattern, Str(text))
    ensures ValidateField(field, Str(text), matches) == None
  {
  }

  /** A text value the pattern refuses, within the bounds, gets the pattern message. */
  lemma TextPatternRefused(field: Node, text: string, matches: (string, Value) -> bool)
    requires field.kind.Text? && !field.disabled && text != ""
    requires field.minLength == 0 || Utf16Length(text) >= field.minLength
    requires field.maxLength == 0 || Utf16Length(text) <= field.maxLength
    requires field.pattern != "" && !matches(field.pattern, Str(text))
    ensures ValidateField(field, Str(text), matches) == Some(PatternMessage)
  {
  }
}
