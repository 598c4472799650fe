/** Where in a definition something is: the segments of a path, and the text
    they are told in (packages/contracts/src/definition/errors.ts:16-24). */
module Paths {

  datatype Segment = Name(name: string) | Index(index: nat)

  type Path = seq<Segment>

  const ROOT := "(root)"

  function DigitOf(n: nat): char
    requires n < 10
  {
    "0123456789"[n]
  }

  /** A number as a template literal writes it. */
  function Decimal(n: nat): string {
    if n < 10 then [DigitOf(n)] else Decimal(n / 10) + [DigitOf(n % 10)]
  }

  /** What one more segment adds to the text so far. */
  function Appended(text: string, segment: Segment): string {
    match segment
    case Index(i) => text + "[" + Decimal(i) + "]"
    case Name(name) => if text == "" then name else text + "." + name
  }

  /** The text of a path, and nothing for the empty one. */
  function Joined(path: Path): string {
    if path == [] then ""
    else Appended(Joined(path[..|path| - 1]), path[|path| - 1])
  }

  function Formatted(path: Path): string {
    if path == [] then ROOT else Joined(path)
  }

  method FormatPath(path: Path) returns (text: string)
    ensures text == Formatted(path)
  {
    if |path| == 0 {
      return ROOT;
    }
    text := "";
    for i := 0 to |path|
      invariant text == Joined(path[..i])
    {
      assert path[..i + 1][..i] == path[..i];
      text := Appended(text, path[i]);
    }
    assert path[..|path|] == path;
  }
}
