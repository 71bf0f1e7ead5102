/** A special key of the on-screen keyboard: a key that reports a special
    code instead of a character. */
module SKeys {
  import opened SKeyCodes
  import opened VKeyboard

  /** A child game object that shows a key's label. */
  class Display {
    var active: bool

    constructor (active: bool)
      ensures this.active == active
    {
      this.active := active;
    }
  }

  class SKey {
    /** The code this key reports. */
    var sKey: SKeyCode
    /** The controller the key reports to, once bound. */
    var keyboard: Keyboard?
    /** The labels shown without and with shift. */
    var lowerDisp: Display
    var upperDisp: Display

    constructor (code: SKeyCode, keyboard: Keyboard?, lower: Display, upper: Display)
      ensures sKey == code && this.keyboard == keyboard
      ensures lowerDisp == lower && upperDisp == upper
    {
      sKey := code;
      this.keyboard := keyboard;
      lowerDisp, upperDisp := lower, upper;
    }

    /** A press reports this key's code to the controller's special buffer. */
    method OnPress()
      requires keyboard != null
      modifies keyboard`sKeyBuffer
      ensures keyboard.sKeyBuffer == old(keyboard.sKeyBuffer) + [sKey]
    {
      keyboard.OnSKeyPress(sKey);
    }

    /** A special key shows the same label whatever the shift state: both
        labels are made active. */
    method OnShift()
      modifies upperDisp`active, lowerDisp`active
      ensures upperDisp.active && lowerDisp.active
    {
      upperDisp.active := true;
      lowerDisp.active := true;
    }

    /** The editor-time setup: the code is chosen from the game object's name,
        and both labels become the object's first child. */
    method Setup(name: string, firstChild: Display)
      modifies this`sKey, this`lowerDisp, this`upperDisp
      ensures sKey == SetupCode(name, old(sKey))
      ensures lowerDisp == firstChild && upperDisp == firstChild
    {
      match FromName(name) {
        case Some(c) => sKey := c;
        case None =>
      }
      lowerDisp := firstChild;
      upperDisp := firstChild;
    }
  }
}
