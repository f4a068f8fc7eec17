/**
 * The four-by-four money keypad: which key sits at which grid index, and the text a
 * key types.
 */
module Keypads {
  datatype KeyAction = Backspace | Plus | Minus | Multiply

  datatype Key = None | Digit(num: int) | Dot | Action(action: KeyAction)

  /** `digitKeyMap`: the grid index of each digit key. */
  const DigitKeyMap: map<int, int> :=
    map[0 := 1, 1 := 2, 2 := 3, 4 := 4, 5 := 5, 6 := 6, 8 := 7, 9 := 8, 10 := 9, 13 := 0]

  const BackspaceIndex := 3
  const MinusIndex := 7
  const PlusIndex := 11
  const MultiplyIndex := 15
  const DotIndex := 14

  /** `getKey`: a digit from the map first, then the fixed action keys, else no key. */
  function GetKey(index: int): Key
  {
    if index in DigitKeyMap then Digit(DigitKeyMap[index])
    else if index == BackspaceIndex then Action(Backspace)
    else if index == MinusIndex then Action(Minus)
    else if index == PlusIndex then Action(Plus)
    else if index == MultiplyIndex then Action(Multiply)
    else if index == DotIndex then Dot
    else None
  }

  /** `Int.toString` for a non-negative number: its decimal digits, most significant first. */
  function NatText(n: nat): (r: string)
    ensures |r| >= 1 && forall i :: 0 <= i < |r| ==> '0' <= r[i] <= '9'
    ensures n < 10 ==> r == [(48 + n) as char]
  {
    if n < 10 then [(48 + n) as char] else NatText(n / 10) + [(48 + n % 10) as char]
  }

  /** `Int.toString`: a minus sign before the digits of a negative number. */
  function IntText(n: int): string
  {
    if n < 0 then "-" + NatText(-n) else NatText(n)
  }

  /** `Key.str`: the text a key types; "" for no key and for Backspace. */
  function Str(k: Key): string
  {
    match k
    case None => ""
    case Digit(num) => IntText(num)
    case Dot => "."
    case Action(a) =>
      match a
      case Minus => "-"
      case Plus => "+"
      case Multiply => "*"
      case Backspace => ""
  }

  /** The characters the keypad can type. */
  predicate IsKeypadChar(c: char)
  {
    '0' <= c <= '9' || c == '.' || c == '+' || c == '-' || c == '*'
  }

  /** The grid has 16 cells, indices 0 to 15. */
  predicate OnGrid(index: int) { 0 <= index < 16 }

  /**
   * The ten digit cells carry exactly the digits 0 to 9, each at one index,
   * and the five action cells are Backspace 3, Minus 7, Plus 11, Dot 14 and
   * Multiply 15; the one remaining cell, 12, and every index off the grid
   * have no key.
   */
  lemma GetKeyLayout(index: int)
    ensures GetKey(index).Digit? <==> index in {0, 1, 2, 4, 5, 6, 8, 9, 10, 13}
    ensures GetKey(index).Digit? ==> 0 <= GetKey(index).num <= 9
    ensures GetKey(index) == Action(Backspace) <==> index == 3
    ensures GetKey(index) == Action(Minus) <==> index == 7
    ensures GetKey(index) == Action(Plus) <==> index == 11
    ensures GetKey(index) == Dot <==> index == 14
    ensures GetKey(index) == Action(Multiply) <==> index == 15
    ensures GetKey(index) == None <==> !OnGrid(index) || index == 12
  {
  }

  /** Every digit has exactly one cell. */
  lemma {:induction false} DigitsOneToOne(d: int)
    requires 0 <= d <= 9
    ensures exists i :: OnGrid(i) && GetKey(i) == Digit(d)
    ensures forall i, j :: GetKey(i) == Digit(d) && GetKey(j) == Digit(d) ==> i == j
  {
    var cells := [13, 0, 1, 2, 4, 5, 6, 8, 9, 10];
    assert GetKey(cells[d]) == Digit(d);
    forall i, j | GetKey(i) == Digit(d) && GetKey(j) == Digit(d) ensures i == j {
      assert i in DigitKeyMap && j in DigitKeyMap;
    }
  }

  /** Distinct cells of the grid carry distinct keys, except the one empty cell. */
  lemma KeysDistinct(i: int, j: int)
    requires OnGrid(i) && OnGrid(j) && i != j
    ensures GetKey(i) != GetKey(j) || GetKey(i) == None
  {
  }

  /**
   * Every key types at most one character, a keypad character; exactly the
   * empty cell and Backspace type nothing.
   */
  lemma KeyTextIsOneKeypadChar(index: int)
    requires OnGrid(index)
    ensures |Str(GetKey(index))| <= 1
    ensures Str(GetKey(index)) == "" <==> index == 3 || index == 12
    ensures forall c :: c in Str(GetKey(index)) ==> IsKeypadChar(c)
  {
  }
}
