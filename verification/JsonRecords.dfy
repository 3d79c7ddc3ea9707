/** JSON records as the store holds them, and the strings a payload scan walks. */
module JsonRecords {
  import opened Options

  datatype Json =
    | Null
    | Bool(b: bool)
    | Num(n: int)
    | Str(s: string)
    | Arr(items: seq<Json>)
    | Obj(fields: map<string, Json>)

  type Record = map<string, Json>

  /** Every string inside a value, object keys included. */
  function Strings(value: Json): set<string>
  {
    match value
    case Null => {}
    case Bool(_) => {}
    case Num(_) => {}
    case Str(s) => {s}
    case Arr(items) => set item, s | item in items && s in Strings(item) :: s
    case Obj(fields) => fields.Keys + set key, s | key in fields && s in Strings(fields[key]) :: s
  }

  /** One step into a value: under a key of an object, or to an item of a list. */
  datatype Step = Under(key: string) | Item(index: nat)

  function ValueAt(value: Json, path: seq<Step>): Option<Json>
    decreases path
  {
    if path == [] then Some(value)
    else
      match path[0]
      case Under(key) =>
        if value.Obj? && key in value.fields then ValueAt(value.fields[key], path[1..]) else None
      case Item(index) =>
        if value.Arr? && index < |value.items| then ValueAt(value.items[index], path[1..]) else None
  }

  /** The path leads to the string, or to an object with such a key. */
  predicate SaysAt(value: Json, path: seq<Step>, s: string) {
    var found := ValueAt(value, path);
    found.Some? && (found.value == Str(s) || (found.value.Obj? && s in found.value.fields))
  }

  lemma {:induction false} WalkedIsAtAPath(value: Json, s: string) returns (path: seq<Step>)
    requires s in Strings(value)
    ensures SaysAt(value, path, s)
  {
    path := [];
    if value.Arr? {
      var i :| 0 <= i < |value.items| && s in Strings(value.items[i]);
      var rest := WalkedIsAtAPath(value.items[i], s);
      path := [Item(i)] + rest;
      assert path[1..] == rest;
    } else if value.Obj? && s !in value.fields {
      var key :| key in value.fields && s in Strings(value.fields[key]);
      var rest := WalkedIsAtAPath(value.fields[key], s);
      path := [Under(key)] + rest;
      assert path[1..] == rest;
    }
  }

  lemma {:induction false} SaidIsWalked(value: Json, path: seq<Step>, s: string)
    requires SaysAt(value, path, s)
    ensures s in Strings(value)
    decreases path
  {
    if path != [] {
      match path[0] {
        case Under(key) => SaidIsWalked(value.fields[key], path[1..], s);
        case Item(index) => SaidIsWalked(value.items[index], path[1..], s);
      }
    }
  }

  /** The walk finds what stands at some path of keys and list positions, and nothing else. */
  lemma WalkIsEveryPath(value: Json, s: string)
    ensures s in Strings(value) <==> exists path :: SaysAt(value, path, s)
  {
    if s in Strings(value) { var _ := WalkedIsAtAPath(value, s); }
    if path :| SaysAt(value, path, s) { SaidIsWalked(value, path, s); }
  }

  lemma FieldStringIsWalked(record: Record, field: string)
    requires field in record && record[field].Str?
    ensures record[field].s in Strings(Obj(record))
  {
    assert record[field].s in Strings(record[field]);
  }
}
