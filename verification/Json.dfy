/** JSON values, and the text codec as the source uses it. */
module Json {
  import opened Wrappers
  import opened Text

  datatype Json =
    | Null
    | Bool(b: bool)
    | Num(n: int)
    | Str(s: string)
    | Arr(items: seq<Json>)
    | Obj(fields: map<string, Json>)

  /** `json.dumps` and `json.loads`; a None of `loads` stands for its ValueError. */
  datatype Codec = Codec(dumps: Json -> string, loads: string -> Option<Json>)

  /** What the proofs need of the codec: it is lossless, and prints one trimmed line. */
  ghost predicate Lossless(codec: Codec) {
    forall m: Json ::
      && codec.loads(codec.dumps(m)) == Some(m)
      && Trimmed(codec.dumps(m))
      && '\n' !in codec.dumps(m)
  }

  /** Python's truth value. */
  predicate Truthy(v: Json) {
    match v
    case Null => false
    case Bool(b) => b
    case Num(n) => n != 0
    case Str(s) => s != []
    case Arr(items) => items != []
    case Obj(fields) => |fields| != 0
  }

  /** The values that Python takes for false, one by one. */
  predicate Unset(v: Json) {
    v == Null || v == Bool(false) || v == Num(0) || v == Str("") || v == Arr([]) || v == Obj(map[])
  }

  lemma TruthyOrUnset(v: Json)
    ensures Truthy(v) <==> !Unset(v)
  {
    if v.Obj? && |v.fields| == 0 { assert v.fields == map[]; }
  }

  /** `d.get(key)`: null when the key is missing. */
  function Get(fields: map<string, Json>, key: string): Json {
    if key in fields then fields[key] else Null
  }
}
