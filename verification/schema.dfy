/** Naming rules shared by the two node hierarchies: a node type `Name`
    is visited by the visitor method `visit_name`. */
module NodeSchema {
  import opened Options

  /** A declared node type: its name and its field names, in order. */
  datatype TypeSpec = TypeSpec(name: string, fields: seq<string>)

  /** The lower-case letters, in alphabetical order. */
  const LowerLetters: string := "abcdefghijklmnopqrstuvwxyz"

  /** ASCII lower-casing of one character: an upper-case letter becomes the
      lower-case letter at the same place in the alphabet, every other
      character is kept, and no upper-case letter is left. */
  function LowerChar(c: char): (r: char)
    ensures 'A' <= c <= 'Z' ==> r == LowerLetters[c as int - 'A' as int]
    ensures !('A' <= c <= 'Z') ==> r == c
    ensures !('A' <= r <= 'Z')
  {
    if 'A' <= c <= 'Z' then (c as int + 32) as char else c
  }

  /** ASCII lower-casing of a type name, as `str.lower` does for the names used here. */
  function Lower(s: string): string
  {
    seq(|s|, i requires 0 <= i < |s| => LowerChar(s[i]))
  }

  /** The visitor method a node type dispatches to. */
  function VisitMethodName(typeName: string): string
  {
    "visit_" + Lower(typeName)
  }

  /** The field names declared for `name` in a table, if it declares that type. */
  function FieldNames(specs: seq<TypeSpec>, name: string): Option<seq<string>>
  {
    if specs == [] then None
    else if specs[0].name == name then Some(specs[0].fields)
    else FieldNames(specs[1..], name)
  }

  /** The visitor method names of a table, one per declared type, in order. */
  function MethodNames(specs: seq<TypeSpec>): (r: seq<string>)
    ensures |r| == |specs|
    ensures forall i :: 0 <= i < |specs| ==> r[i] == VisitMethodName(specs[i].name)
  {
    if specs == [] then [] else [VisitMethodName(specs[0].name)] + MethodNames(specs[1..])
  }
}
