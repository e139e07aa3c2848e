/**
 * JavaScript values as a recursive walk with a `seen` set meets them: strings of UTF-16 code units, other
 * primitives, and references into a heap of arrays and plain objects, cycles included.
 */
module ObjectGraphs {
  newtype Unit = u: int | 0 <= u < 0x10000

  type Text = seq<Unit>
  type Id = nat

  datatype Value = StrV(text: Text) | PrimV(p: int) | Ref(id: Id)

  datatype Node = ArrN(items: seq<Value>) | ObjN(fields: seq<(string, Value)>)

  predicate FitsIn(h: map<Id, Node>, v: Value) { v.Ref? ==> v.id in h }

  predicate NodeFits(h: map<Id, Node>, n: Node) {
    match n
    case ArrN(items) => forall i :: 0 <= i < |items| ==> FitsIn(h, items[i])
    case ObjN(fields) => forall i :: 0 <= i < |fields| ==> FitsIn(h, fields[i].1)
  }

  /** A heap without dangling references. */
  type Heap = h: map<Id, Node> | forall id :: id in h ==> NodeFits(h, h[id])

  datatype Field = Field(key: string, value: Tree)

  /** What a walk along references sees; `Circle` is a reference back to an object on the way down. */
  datatype Tree = Str(text: Text) | Prim(p: int) | Circle | Arr(items: seq<Tree>) | Obj(fields: seq<Field>)

  function Unfold(h: Heap, v: Value, seen: set<Id>): Tree
    requires FitsIn(h, v)
    decreases h.Keys - seen
  {
    match v
    case StrV(text) => Str(text)
    case PrimV(p) => Prim(p)
    case Ref(id) =>
      if id in seen then Circle
      else
        match h[id]
        case ArrN(items) =>
          Arr(seq(|items|, i requires 0 <= i < |items| => Unfold(h, items[i], seen + {id})))
        case ObjN(fields) =>
          Obj(seq(|fields|, i requires 0 <= i < |fields| => Field(fields[i].0, Unfold(h, fields[i].1, seen + {id}))))
  }

  /** The code units of an ASCII string. */
  function Ascii(s: string): (t: Text)
    requires forall i :: 0 <= i < |s| ==> s[i] < 128 as char
    ensures |t| == |s| && forall i :: 0 <= i < |s| ==> t[i] < 128
  {
    seq(|s|, i requires 0 <= i < |s| => s[i] as int as Unit)
  }

  const CIRCULAR: Text := Ascii("[CIRCULAR]")
  const REDACTED_RECALL: Text := Ascii("[recall result truncated by DeepSonar]")

  /** The tree as data: a circle is the marker string that stands for it. */
  function Plain(t: Tree): Tree {
    match t
    case Circle => Str(CIRCULAR)
    case Arr(items) => Arr(seq(|items|, i requires 0 <= i < |items| => Plain(items[i])))
    case Obj(fields) =>
      Obj(seq(|fields|, i requires 0 <= i < |fields| => Field(fields[i].key, Plain(fields[i].value))))
    case _ => t
  }
}
