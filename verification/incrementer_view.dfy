/**
 * The custom digit keyboard: which key a button tag stands for.
 */
module DigitKeyboard {
  import opened Strings

  datatype KeyType = Digit(value: int) | Backspace | Done | Close

  /** `KeyType.keyType(for:)`: tags 0 to 9 are digits, 10 to 12 the action keys, anything else no key. */
  function KeyTypeFor(tag: int): (k: Option<KeyType>)
    ensures k.Some? <==> 0 <= tag <= 12
    ensures k.Some? && k.value.Digit? <==> 0 <= tag <= 9
    ensures k.Some? && k.value.Digit? ==> k.value.value == tag
  {
    if 0 <= tag <= 9 then Some(Digit(tag))
    else if tag == 10 then Some(Backspace)
    else if tag == 11 then Some(Done)
    else if tag == 12 then Some(Close)
    else None
  }

  /** The tag of the button that produces a key. */
  function TagOf(k: KeyType): int
  {
    match k
    case Digit(v) => v
    case Backspace => 10
    case Done => 11
    case Close => 12
  }

  predicate IsKey(k: KeyType)
  {
    k.Digit? ==> 0 <= k.value <= 9
  }

  /** Every key of the keyboard has exactly one tag, and every tag in 0 to 12 exactly one key. */
  lemma KeyTagRoundTrip(k: KeyType, tag: int)
    ensures IsKey(k) ==> KeyTypeFor(TagOf(k)) == Some(k)
    ensures 0 <= tag <= 12 ==> IsKey(KeyTypeFor(tag).value) && TagOf(KeyTypeFor(tag).value) == tag
  {
  }

  /** `keyPressed`: a button forwards its key to the field, and a button without a key nothing. */
  function KeyPressed(tag: int): (forwarded: seq<KeyType>)
    ensures |forwarded| <= 1
    ensures forwarded == [] <==> !(0 <= tag <= 12)
    ensures forwarded != [] ==> IsKey(forwarded[0]) && TagOf(forwarded[0]) == tag
  {
    KeyTagRoundTrip(Digit(0), tag);
    match KeyTypeFor(tag)
    case None => []
    case Some(k) => [k]
  }
}

/**
 * The UIKit `IncrementerView`: a number field between a minus and a plus
 * button, edited either with the buttons or with the digit keyboard, that
 * keeps its value between a minimum and a maximum and asks a delegate
 * before every change.
 */
module Incrementers {
  import opened Strings
  import opened DigitKeyboard

  /** The delegate notifications a change produces, in order. */
  datatype Notification = WillUpdate(newValue: int, oldValue: int) | DidUpdate(newValue: int, oldValue: int)

  /** Backspace as the key handler writes it: the FIRST character of the field goes. */
  function DeleteFirst(text: string): (r: string)
    ensures |text| > 0 ==> |r| == |text| - 1 && r == text[1..]
    ensures |text| == 0 ==> r == text
  {
    if |text| > 0 then text[1..] else text
  }

  /** Typing 1, then 2, then backspace leaves "2" rather than "1". */
  lemma BackspaceRemovesFirstDigit()
    ensures DeleteFirst("1" + "2") == "2"
    ensures DeleteFirst("1" + "2") != "1"
  {
  }

  /** Backspace as a keyboard key means it: the last character of the field goes. */
  function DeleteLast(text: string): (r: string)
    ensures |text| > 0 ==> |r| == |text| - 1 && r == text[..|text| - 1]
    ensures |text| == 0 ==> r == text
  {
    if |text| > 0 then text[..|text| - 1] else text
  }

  /** Backspace undoes the last typed digit, whatever was typed before it. */
  lemma BackspaceUndoesDigit(text: string, d: nat)
    requires d < 10
    ensures DeleteLast(text + DecimalString(d)) == text
  {
    assert DecimalString(d) == [DigitChar(d)];
  }

  class IncrementerView {
    var isEnabled: bool
    var currentValue: int
    var maxValue: int
    var minValue: int
    /** `valueTextField.text` and `valueTextField.placeholder`. */
    var text: string
    var placeholder: string
    /** Whether each button can be pressed. */
    var decrementEnabled: bool
    var incrementEnabled: bool
    /** What the delegate has been told so far. */
    var notifications: seq<Notification>
    /** `UIView.tag`, set by the owner to tell its incrementers apart. */
    const tag: int

    /** The buttons show what the value allows: `updateUI(for:)` runs after every change. */
    ghost predicate Valid()
      reads this
    {
      && decrementEnabled == (isEnabled && currentValue > minValue)
      && incrementEnabled == (isEnabled && currentValue < maxValue)
    }

    /** The value lies in the configured range. */
    ghost predicate InRange()
      reads this
    {
      minValue <= currentValue <= maxValue
    }

    /** `create(startingValue:maxValue:minValue:)` followed by setting `tag`. */
    constructor(startingValue: int, maxValue: int, minValue: int, tag: int)
      ensures Valid()
      ensures currentValue == startingValue && this.maxValue == maxValue && this.minValue == minValue
      ensures this.tag == tag && isEnabled && text == DecimalString(startingValue) && notifications == []
    {
      isEnabled := true;
      currentValue := startingValue;
      this.maxValue := maxValue;
      this.minValue := minValue;
      this.tag := tag;
      placeholder := "";
      notifications := [];
      text := DecimalString(startingValue);
      decrementEnabled := startingValue > minValue;
      incrementEnabled := startingValue < maxValue;
    }

    /** `updateUI(for:)` on the current value. */
    method UpdateUI()
      modifies this`text, this`decrementEnabled, this`incrementEnabled
      ensures Valid() && text == DecimalString(currentValue)
    {
      text := DecimalString(currentValue);
      decrementEnabled := isEnabled && currentValue > minValue;
      incrementEnabled := isEnabled && currentValue < maxValue;
    }

    /** Setting `isEnabled` refreshes the field and the buttons. */
    method SetEnabled(enabled: bool)
      modifies this`isEnabled, this`text, this`decrementEnabled, this`incrementEnabled
      ensures Valid() && isEnabled == enabled && text == DecimalString(currentValue)
      ensures enabled ==> (decrementEnabled <==> currentValue > minValue) && (incrementEnabled <==> currentValue < maxValue)
      ensures !enabled ==> !decrementEnabled && !incrementEnabled
    {
      isEnabled := enabled;
      UpdateUI();
    }

    /**
     * `changeValue`. `approval` is the delegate's answer to should-update:
     * None when there is no delegate, which blocks the change like a refusal.
     * A value out of range puts the current value back in the field; a
     * refused one leaves everything as it was; an approved one becomes the
     * value, refreshes the field and the buttons, and is announced before
     * and after with the old value. `changed` reports the did-update call.
     */
    method ChangeValue(newValue: int, approval: Option<bool>) returns (changed: bool)
      requires Valid()
      modifies this`currentValue, this`text, this`decrementEnabled, this`incrementEnabled, this`notifications
      ensures Valid()
      ensures changed <==> minValue <= newValue <= maxValue && approval == Some(true)
      ensures !(minValue <= newValue <= maxValue) ==>
        && currentValue == old(currentValue) && text == DecimalString(currentValue)
        && notifications == old(notifications)
      ensures minValue <= newValue <= maxValue && !changed ==>
        && currentValue == old(currentValue) && text == old(text) && notifications == old(notifications)
      ensures changed ==>
        && currentValue == newValue && text == DecimalString(newValue)
        && notifications == old(notifications) + [WillUpdate(newValue, old(currentValue)), DidUpdate(newValue, old(currentValue))]
      ensures old(InRange()) ==> InRange()
    {
      changed := false;
      if !(newValue <= maxValue && newValue >= minValue) {
        text := DecimalString(currentValue);
        return;
      }
      if approval != Some(true) {
        return;
      }
      var oldValue := currentValue;
      notifications := notifications + [WillUpdate(newValue, oldValue)];
      currentValue := newValue;
      UpdateUI();
      notifications := notifications + [DidUpdate(currentValue, oldValue)];
      changed := true;
    }

    /** `textFieldDidBeginEditing`: the value moves to the placeholder and the field empties. */
    method BeginEditing()
      modifies this`text, this`placeholder
      ensures placeholder == old(text) && text == ""
    {
      placeholder := text;
      text := "";
    }

    /**
     * The digit keyboard's key handler. A digit is appended while the field
     * is shorter than the maximum written out; backspace removes the last
     * character; done and close read the field and, when it holds a number,
     * ask to change to it, and otherwise put the current value back.
     */
    method KeySelected(key: KeyType, approval: Option<bool>) returns (changed: bool)
      requires Valid() && IsKey(key)
      modifies this`currentValue, this`text, this`decrementEnabled, this`incrementEnabled, this`notifications
      ensures Valid()
      ensures old(InRange()) ==> InRange()
      ensures !key.Done? && !key.Close? ==>
        !changed && currentValue == old(currentValue) && notifications == old(notifications)
      ensures key.Digit? && |old(text)| < |DecimalString(maxValue)| ==> text == old(text) + [DigitChar(key.value)]
      ensures key.Digit? && |old(text)| >= |DecimalString(maxValue)| ==> text == old(text)
      ensures key.Backspace? ==> text == DeleteLast(old(text))
      ensures (key.Done? || key.Close?) && ParseInt(old(text)).None? ==>
        !changed && currentValue == old(currentValue) && text == DecimalString(currentValue)
      ensures (key.Done? || key.Close?) && ParseInt(old(text)).Some? ==>
        var entered := ParseInt(old(text)).value;
        && (changed <==> minValue <= entered <= maxValue && approval == Some(true))
        && (changed ==> currentValue == entered && text == DecimalString(entered))
        && (!changed ==> currentValue == old(currentValue))
    {
      changed := false;
      match key {
        case Digit(v) =>
          if |text| < |DecimalString(maxValue)| {
            assert DecimalString(v) == [DigitChar(v)];
            text := text + DecimalString(v);
          }
        case Backspace =>
          text := DeleteLast(text);
        case _ =>
          var entered := ParseInt(text);
          if entered.None? {
            text := DecimalString(currentValue);
            return;
          }
          changed := ChangeValue(entered.value, approval);
      }
    }

    /** The plus button: one more, within the range and with the delegate's approval. */
    method IncrementPressed(approval: Option<bool>) returns (changed: bool)
      requires Valid()
      modifies this`currentValue, this`text, this`decrementEnabled, this`incrementEnabled, this`notifications
      ensures Valid() && (old(InRange()) ==> InRange())
      ensures changed <==> old(currentValue) < maxValue && old(currentValue) + 1 >= minValue && approval == Some(true)
      ensures currentValue == if changed then old(currentValue) + 1 else old(currentValue)
    {
      changed := ChangeValue(currentValue + 1, approval);
    }

    /** The minus button: one less, within the range and with the delegate's approval. */
    method DecrementPressed(approval: Option<bool>) returns (changed: bool)
      requires Valid()
      modifies this`currentValue, this`text, this`decrementEnabled, this`incrementEnabled, this`notifications
      ensures Valid() && (old(InRange()) ==> InRange())
      ensures changed <==> old(currentValue) > minValue && old(currentValue) - 1 <= maxValue && approval == Some(true)
      ensures currentValue == if changed then old(currentValue) - 1 else old(currentValue)
    {
      changed := ChangeValue(currentValue - 1, approval);
    }
  }
}
