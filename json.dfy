/** Event payloads: a JSON value tree and its text. The text layout follows
    System.Text.Json's compact output (no spaces); string escaping is not modelled. */
module Json {
  import opened Common

  datatype Value =
    | Null
    | Str(s: string)
    | Arr(items: seq<Value>)
    | Obj(fields: seq<Member>)

  datatype Member = Member(name: string, value: Value)

  function Quote(s: string): string {
    "\"" + s + "\""
  }

  function Write(v: Value): (t: string)
    ensures |t| >= 1 && !IsWhiteSpace(t[0])
    ensures !IsBlank(t)
    decreases v, 1
  {
    match v
    case Null => "null"
    case Str(s) => Quote(s)
    case Arr(items) => "[" + WriteItems(items) + "]"
    case Obj(fields) => "{" + WriteMembers(fields) + "}"
  }

  function WriteItems(items: seq<Value>): string
    decreases items, 0
  {
    if items == [] then ""
    else Write(items[0]) + (if |items| == 1 then "" else "," + WriteItems(items[1..]))
  }

  function WriteMembers(fields: seq<Member>): string
    decreases fields, 0
  {
    if fields == [] then ""
    else
      Quote(fields[0].name) + ":" + Write(fields[0].value)
      + (if |fields| == 1 then "" else "," + WriteMembers(fields[1..]))
  }

  /** The value a member of an object carries, when the object has it. */
  function Field(v: Value, name: string): Value {
    if !v.Obj? then Null else FieldIn(v.fields, name)
  }

  function FieldIn(fields: seq<Member>, name: string): Value {
    if fields == [] then Null
    else if fields[0].name == name then fields[0].value
    else FieldIn(fields[1..], name)
  }

  /** The lookup finds the first member with that name. */
  lemma {:induction false} FieldAt(ms: seq<Member>, k: nat, name: string)
    requires k < |ms| && ms[k].name == name
    requires forall j :: 0 <= j < k ==> ms[j].name != name
    ensures FieldIn(ms, name) == ms[k].value
    decreases k
  {
    if k > 0 {
      FieldAt(ms[1..], k - 1, name);
    }
  }
}
