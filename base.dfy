/** Shared vocabulary of the model: optional values, identifiers, and the
    dynamic values that flow between nodes, live in property dictionaries and
    are stored in selection queries. */
module Base {

  datatype Option<+T> = None | Some(value: T)

  /** A UUID as the add-on stores it: its string form. */
  type Uuid = string

  /** A reference to a host datablock. A reference whose datablock has been
      removed stays a (truthy) value but no longer resolves. */
  type DbRef = nat

  /** A handle to a scene-graph prim (a DatablockProxy object). */
  type Handle = nat

  /** A compiled selection expression: the FNSelectionQuery record. */
  datatype Query = Query(raw: string, glob: string, filters: seq<Filter>)

  /** The filter dictionaries a query carries: `{'type': 'function', ...}`,
      `{'type': 'property', 'key', 'op', 'value'}` and the combinators
      `{'type': 'union' | 'intersection' | 'difference', 'queries': [A, B]}`. */
  datatype Filter =
    | FunctionFilter(func: string, arg: string)
    | PropertyFilter(key: string, op: string, value: string)
    | CombineFilter(kind: string, a: Query, b: Query)

  /** The Python values the model handles. Floats are real numbers; any object
      the model does not look inside is `VOpaque`. */
  datatype Value =
    | VNone
    | VBool(b: bool)
    | VInt(i: int)
    | VReal(r: real)
    | VStr(s: string)
    | VList(items: seq<Value>)
    | VDict(d: map<string, Value>)
    | VRef(ref: DbRef)
    | VProxy(h: Handle)
    | VQuery(q: Query)
    | VOpaque(tag: nat)

  type Props = map<string, Value>

  /** No element occurs twice. */
  ghost predicate NoDup<T>(s: seq<T>) {
    forall i, j :: 0 <= i < j < |s| ==> s[i] != s[j]
  }

  /** Python truthiness. Proxies, queries, datablocks and other objects
      define neither `__bool__` nor `__len__`, so they are always true. */
  predicate Truthy(v: Value) {
    match v
    case VNone => false
    case VBool(b) => b
    case VInt(i) => i != 0
    case VReal(r) => r != 0.0
    case VStr(s) => s != ""
    case VList(items) => items != []
    case VDict(d) => d != map[]
    case _ => true
  }

  /** `isinstance(v, int)`: Python's bool is a subclass of int. */
  function AsInt(v: Value): Option<int> {
    match v
    case VInt(i) => Some(i)
    case VBool(b) => Some(if b then 1 else 0)
    case _ => None
  }

  /** `d.get(key)`: None when the key is absent. */
  function Get(d: Props, key: string): Value {
    if key in d then d[key] else VNone
  }

  /** `kwargs.get(key) or fallback`. */
  function GetOr(d: Props, key: string, fallback: Value): Value {
    if key in d && Truthy(d[key]) then d[key] else fallback
  }

  /** The socket-keyed dictionary a node returns: `{identifier: value}`. */
  function Out(socket: string, v: Value): Value {
    VDict(map[socket := v])
  }

  /** The value a list input holds as a sequence: a list is itself, any other
      value is wrapped as a one-element list (`if not isinstance(x, list): x = [x]`). */
  function AsList(v: Value): seq<Value> {
    if v.VList? then v.items else [v]
  }
}
