/** The instruction set and its decoder: a total map from a cell value and the
    string-mode flag to one instruction. */
module Code {
  import opened Ints

  datatype Direction = North | South | East | West

  datatype Instruction =
    | ReadAndPush(value: nat)   // push a value onto the stack
    | NoOp
    | Stop
    | Skip                      // jump over the next cell
    | StringMode                // toggle string mode
    | Move(dir: Direction)
    | MoveEastOrWest            // pop v; East if v == 0, West otherwise
    | MoveNorthOrSouth          // pop v; North if v == 0, South otherwise
    | MoveRandom
    | Duplicate
    | Swap
    | Pop
    | Add
    | Sub
    | Mul
    | Div
    | Mod
    | GreaterThan
    | Not
    | PrintInt
    | PrintChr
    | ReadInt
    | ReadChr
    | Put                       // pop y, x, v; store v at (x, y)
    | Get                       // pop y, x; push the cell at (x, y)

  const QUOTE: nat := 34
  const DIGIT_ZERO: nat := 48
  const DIGIT_NINE: nat := 57

  /** The decoder. Only the low byte of the cell selects an instruction; a
      cell that is not in the table is pushed whole outside string mode and as
      its low byte inside it. */
  function FromRaw(raw: nat, stringMode: bool): (r: Instruction)
    ensures r.ReadAndPush? ==> r.value <= raw
  {
    var b := LowByte(raw);
    if stringMode then
      if b == QUOTE then StringMode else ReadAndPush(b)
    else if b == ' ' as nat then NoOp
    else if b == '@' as nat then Stop
    else if b == '#' as nat then Skip
    else if b == QUOTE then StringMode
    else if b == '^' as nat then Move(North)
    else if b == '>' as nat then Move(East)
    else if b == 'v' as nat then Move(South)
    else if b == '<' as nat then Move(West)
    else if b == '_' as nat then MoveEastOrWest
    else if b == '|' as nat then MoveNorthOrSouth
    else if b == '?' as nat then MoveRandom
    else if b == ':' as nat then Duplicate
    else if b == '\\' as nat then Swap
    else if b == '$' as nat then Pop
    else if b == '+' as nat then Add
    else if b == '-' as nat then Sub
    else if b == '*' as nat then Mul
    else if b == '/' as nat then Div
    else if b == '%' as nat then Mod
    else if b == '`' as nat then GreaterThan
    else if b == '!' as nat then Not
    else if b == '.' as nat then PrintInt
    else if b == ',' as nat then PrintChr
    else if b == '&' as nat then ReadInt
    else if b == '~' as nat then ReadChr
    else if b == 'p' as nat then Put
    else if b == 'g' as nat then Get
    else if DIGIT_ZERO <= b <= DIGIT_NINE then ReadAndPush(b - DIGIT_ZERO)
    else ReadAndPush(raw)
  }

  /** The instruction table of the language, written as a map from symbol to
      instruction: an independent statement of what the decoder recognises
      outside string mode (digits aside). */
  const Table: map<char, Instruction> := map[
    ' ' := NoOp, '@' := Stop, '#' := Skip, '"' := StringMode,
    '^' := Move(North), '>' := Move(East), 'v' := Move(South), '<' := Move(West),
    '_' := MoveEastOrWest, '|' := MoveNorthOrSouth, '?' := MoveRandom,
    ':' := Duplicate, '\\' := Swap, '$' := Pop,
    '+' := Add, '-' := Sub, '*' := Mul, '/' := Div, '%' := Mod,
    '`' := GreaterThan, '!' := Not,
    '.' := PrintInt, ',' := PrintChr, '&' := ReadInt, '~' := ReadChr,
    'p' := Put, 'g' := Get
  ]

  /** In string mode a cell whose low byte is a quote toggles the mode, and
      every other cell pushes its low byte (a digit is not reinterpreted). */
  lemma StringModeDecoding(raw: nat)
    ensures FromRaw(raw, true) == StringMode <==> LowByte(raw) == QUOTE
    ensures LowByte(raw) != QUOTE ==> FromRaw(raw, true) == ReadAndPush(LowByte(raw))
    ensures FromRaw(raw, true).ReadAndPush? ==> FromRaw(raw, true).value < 256
  {
  }

  /** Outside string mode a cell whose low byte is a decimal digit pushes that
      digit's value, whatever the higher bits hold. */
  lemma DigitDecoding(raw: nat)
    requires DIGIT_ZERO <= LowByte(raw) <= DIGIT_NINE
    ensures FromRaw(raw, false) == ReadAndPush(LowByte(raw) - DIGIT_ZERO)
    ensures FromRaw(raw, false).value <= 9
  {
  }

  /** Outside string mode the decoder agrees with the table: a tabulated low
      byte gives its instruction, and an instruction other than a push comes
      only from a tabulated low byte. */
  lemma {:induction false} TableDecoding(raw: nat)
    ensures LowByte(raw) as char in Table ==> FromRaw(raw, false) == Table[LowByte(raw) as char]
    ensures !FromRaw(raw, false).ReadAndPush? ==>
              LowByte(raw) as char in Table && Table[LowByte(raw) as char] == FromRaw(raw, false)
  {
    var b := LowByte(raw);
    var c := b as char;
    assert c as nat == b;
    if c in Table {
      assert c in Table.Keys;
    }
  }

  /** Outside string mode a cell that is neither tabulated nor a digit is
      pushed unchanged, all of its bits included. */
  lemma FallbackDecoding(raw: nat)
    requires LowByte(raw) as char !in Table
    requires !(DIGIT_ZERO <= LowByte(raw) <= DIGIT_NINE)
    ensures FromRaw(raw, false) == ReadAndPush(raw)
  {
    var c := LowByte(raw) as char;
    assert c as nat == LowByte(raw);
    assert c != ' ' && c != '@' && c != '#' && c != '"' && c != 'p' && c != 'g';
  }
}
