/** JSON values after parsing. */
module Json {
  import opened Base

  datatype Json =
    | Null
    | Bool(truth: bool)
    | Num(number: int)
    | Str(text: string)
    | Arr(items: seq<Json>)
    | Obj(fields: map<string, Json>)

  /** A place in a document. */
  datatype Step = Field(name: string) | Elem(index: nat)

  type Path = seq<Step>

  function At(v: Json, p: Path): Option<Json> {
    if p == [] then Some(v)
    else
      match p[0]
      case Field(k) => if v.Obj? && k in v.fields then At(v.fields[k], p[1..]) else None
      case Elem(i) => if v.Arr? && i < |v.items| then At(v.items[i], p[1..]) else None
  }

  function LowerChar(c: char): char {
    if 'A' <= c <= 'Z' then c - 'A' + 'a' else c
  }

  function Lower(s: string): string {
    seq(|s|, i requires 0 <= i < |s| => LowerChar(s[i]))
  }
}
