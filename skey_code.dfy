/** The special (non-printable) key codes of the virtual keyboard, and the
    name-to-code switch that the setup of a special key applies to the name
    of its game object. */
module SKeyCodes {
  import opened Options

  /** The logical special keys, in the declaration order of the enum. */
  datatype SKeyCode = BACKSPACE | TAB | SYMBOL | SPACE | SHIFT | RETURN | UP | DOWN | LEFT | RIGHT

  /** The enum's underlying value: its position in the declaration, from 0. */
  function Ordinal(c: SKeyCode): (n: nat)
    ensures n < |AllCodes| && AllCodes[n] == c
  {
    match c
    case BACKSPACE => 0
    case TAB => 1
    case SYMBOL => 2
    case SPACE => 3
    case SHIFT => 4
    case RETURN => 5
    case UP => 6
    case DOWN => 7
    case LEFT => 8
    case RIGHT => 9
  }

  /** Every code once, in declaration order. */
  const AllCodes: seq<SKeyCode> :=
    [BACKSPACE, TAB, SYMBOL, SPACE, SHIFT, RETURN, UP, DOWN, LEFT, RIGHT]

  /** The enum has exactly ten values: the i-th code of the declaration has
      value i, so no two positions hold the same code. */
  lemma AllCodesDistinct()
    ensures |AllCodes| == 10
    ensures forall i :: 0 <= i < |AllCodes| ==> Ordinal(AllCodes[i]) == i
    ensures forall i, j :: 0 <= i < j < |AllCodes| ==> AllCodes[i] != AllCodes[j]
  {
  }

  /** The member's name as written in the enum; a special key's game object
      carries this name. */
  function Name(c: SKeyCode): string
  {
    match c
    case BACKSPACE => "BACKSPACE"
    case TAB => "TAB"
    case SYMBOL => "SYMBOL"
    case SPACE => "SPACE"
    case SHIFT => "SHIFT"
    case RETURN => "RETURN"
    case UP => "UP"
    case DOWN => "DOWN"
    case LEFT => "LEFT"
    case RIGHT => "RIGHT"
  }

  /** The `switch` on the game object's name: the code whose name it is, or
      nothing for any other name (the switch has no default branch). */
  function FromName(name: string): (r: Option<SKeyCode>)
    ensures r.Some? ==> Name(r.value) == name
    ensures r.None? ==> forall c :: Name(c) != name
  {
    if name == "BACKSPACE" then Some(BACKSPACE)
    else if name == "RETURN" then Some(RETURN)
    else if name == "SHIFT" then Some(SHIFT)
    else if name == "SPACE" then Some(SPACE)
    else if name == "SYMBOL" then Some(SYMBOL)
    else if name == "TAB" then Some(TAB)
    else if name == "UP" then Some(UP)
    else if name == "DOWN" then Some(DOWN)
    else if name == "LEFT" then Some(LEFT)
    else if name == "RIGHT" then Some(RIGHT)
    else None
  }

  /** The code a special key holds after its setup, given its name and the
      code it held before. */
  function SetupCode(name: string, current: SKeyCode): SKeyCode
  {
    match FromName(name)
    case Some(c) => c
    case None => current
  }

  /** Naming a key after a code and running the setup gives that code. */
  lemma NameRoundTrip(c: SKeyCode)
    ensures FromName(Name(c)) == Some(c)
  {
  }

  /** No two codes share a name. */
  lemma NameInjective(c: SKeyCode, d: SKeyCode)
    requires Name(c) == Name(d)
    ensures c == d
  {
  }

  /** Setup on a key named after code `c` sets the key's code to `c`,
      whatever it held before. */
  lemma SetupKnownName(c: SKeyCode, current: SKeyCode)
    ensures SetupCode(Name(c), current) == c
  {
  }

  /** Setup on a key whose name is none of the ten leaves its code as it was. */
  lemma SetupUnknownName(name: string, current: SKeyCode)
    requires forall c :: Name(c) != name
    ensures SetupCode(name, current) == current
  {
  }
}
