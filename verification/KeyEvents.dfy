/** Browser key events, as the shortcuts and the double-shift detector read them. */
module KeyEvents {
  import opened Text

  /** `ShortcutKeyEventLike`, absent parts being false or empty. */
  datatype KeyEvent = KeyEvent(key: string, code: string, meta: bool, ctrl: bool, alt: bool, shift: bool,
                               repeated: bool)

  /** `^Key[A-Z]$|^Digit[0-9]$`, ignoring case. */
  predicate IsPhysical(code: string) {
    var lower := Lower(code);
    || (|code| == 4 && lower[..3] == "key" && IsLetter(code[3]))
    || (|code| == 6 && lower[..5] == "digit" && '0' <= code[5] <= '9')
  }

  /** `eventKeyName(event) === 'Shift'`. */
  predicate IsShift(event: KeyEvent) {
    event.key == "Shift" || event.code == "ShiftLeft" || event.code == "ShiftRight"
  }

  /** `isPlainShiftKeyEvent`. */
  predicate IsPlainShift(event: KeyEvent) {
    IsShift(event) && !event.meta && !event.ctrl && !event.alt && !event.repeated
  }
}
