/** The ZPL command catalog (the keys of `ZPLCommands`,
    packages/sdk/src/types/zpl-commands.ts) and the parser's handler table
    over it. */
module Commands {

  /** The catalog (the keys of `ZPLCommands`): `^A`, and the three-character
      commands listed by prefix and letter, each with the characters that may
      follow them. */
  function CommandTails(prefix: char, letter: char): (r: string)
    ensures r != "" ==> (prefix == '^' || prefix == '~') && 'A' <= letter <= 'Z'
    ensures forall c :: c in r ==> TailChar(c)
  {
    if prefix == '^' then CaretTails(letter)
    else if prefix == '~' then TildeTails(letter)
    else ""
  }

  /** The third characters of the `^` commands whose second character is `letter`. */
  function CaretTails(letter: char): (r: string)
    ensures r != "" ==> 'A' <= letter <= 'Z'
    ensures forall c :: c in r ==> TailChar(c)
  {
    match letter
    case 'A' => "@"
    case 'B' => "012345789ABCDEFIJKLMOPQRSTUXYZ"
    case 'C' => "CDFIMOTVW"
    case 'D' => "F"
    case 'F' => "BCDHMNOPRSTVWX"
    case 'G' => "BCDEFS"
    case 'H' => "FGHVWYZ"
    case 'I' => "DLMS"
    case 'J' => "BJMSTUWZ"
    case 'K' => "DLNP"
    case 'L' => "HLRST"
    case 'M' => "CDFLMNPTUW"
    case 'N' => "IS"
    case 'P' => "FHMOPQRW"
    case 'S' => "CEFLNOPQRSTXZ"
    case 'T' => "O"
    case 'W' => "D"
    case 'X' => "ABFGZ"
    case 'Z' => "Z"
    case _ => ""
  }

  /** The third characters of the `~` commands whose second character is `letter`. */
  function TildeTails(letter: char): (r: string)
    ensures r != "" ==> 'A' <= letter <= 'Z'
    ensures forall c :: c in r ==> TailChar(c)
  {
    match letter
    case 'D' => "BEGNSTUY"
    case 'E' => "G"
    case 'H' => "BDIMSU"
    case 'J' => "ABCDEFGLNOPRSX"
    case 'K' => "B"
    case 'N' => "CRT"
    case 'P' => "RS"
    case 'R' => "O"
    case 'S' => "D"
    case 'T' => "A"
    case 'W' => "C"
    case _ => ""
  }

  /** The commands with a handler of their own; `^FS` is accepted and does
      nothing. */
  const ImplementedCommands: set<string> :=
    {"^B3", "^BC", "^BY", "^CF", "^FD", "^FH", "^FO", "^FR", "^GB", "^LH", "^FS"}

  /** A character that may end a three-character command: an upper-case
      letter, a digit or `@`. */
  predicate TailChar(c: char) {
    'A' <= c <= 'Z' || '0' <= c <= '9' || c == '@'
  }

  /** `isValidCommand`: membership in the catalog. Every catalogued command
      other than `^A` has the shape the command scanner matches. */
  function IsValidCommand(command: string): (b: bool)
    ensures b && command != "^A" ==>
      |command| == 3 && (command[0] == '^' || command[0] == '~') && 'A' <= command[1] <= 'Z' && TailChar(command[2])
  {
    command == "^A" || (|command| == 3 && command[2] in CommandTails(command[0], command[1]))
  }

  /** The entries of `zplCommandHandlers`. */
  datatype Handler =
    | HandleB3 | HandleBC | HandleBY | HandleCF | HandleFD | HandleFH
    | HandleFO | HandleFR | HandleGB | HandleLH | HandleNoOp | CommandNotImplemented

  /** The handler the table holds for a catalogued command (the parser asks
      only after `IsValidCommand`). */
  function HandlerFor(command: string): (h: Handler)
    ensures h == CommandNotImplemented <==> command !in ImplementedCommands
    ensures h == HandleNoOp <==> command == "^FS"
  {
    match command
    case "^B3" => HandleB3
    case "^BC" => HandleBC
    case "^BY" => HandleBY
    case "^CF" => HandleCF
    case "^FD" => HandleFD
    case "^FH" => HandleFH
    case "^FO" => HandleFO
    case "^FR" => HandleFR
    case "^GB" => HandleGB
    case "^LH" => HandleLH
    case "^FS" => HandleNoOp
    case _ => CommandNotImplemented
  }

  /** Every implemented command is in the catalog, so the table covers it. */
  lemma ImplementedAreCatalogued()
    ensures forall c :: c in ImplementedCommands ==> IsValidCommand(c)
  {
  }

  /** Every catalogued command is `^A` or three characters: a prefix and an
      upper-case letter, then the character the table lists. */
  lemma CatalogShape(command: string)
    requires IsValidCommand(command)
    ensures command == "^A" ||
      (|command| == 3 && (command[0] == '^' || command[0] == '~') && 'A' <= command[1] <= 'Z')
  {
    if command != "^A" {
      TailsShape(command[0], command[1], command[2]);
    }
  }

  lemma TailsShape(prefix: char, letter: char, c: char)
    requires c in CommandTails(prefix, letter)
    ensures (prefix == '^' || prefix == '~') && 'A' <= letter <= 'Z'
  {
    assert CommandTails(prefix, letter) != "";
  }
}
