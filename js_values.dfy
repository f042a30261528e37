/** The JavaScript values the emitter inspects: their `typeof` tags, their
    truthiness, and the reference identity of functions and objects. */
module JsValues {

  datatype Option<+T> = None | Some(value: T)

  /** What a function object does when the host calls it. The bodies of user
      functions are opaque; the once adapter (the closure `onceListener` that
      `once` builds) is the only function whose body the emitter defines. It
      remembers the event and the listener given to `once`. */
  datatype Code =
    | UserCode(id: nat)
    | OnceAdapter(event: Value, listener: Value)

  /** A function object. Two `Func` values are `===` exactly when they hold the
      same reference. */
  class Closure {
    const code: Code

    constructor (code: Code)
      ensures this.code == code
    {
      this.code := code;
    }
  }

  /** An object (a plain object, an array, an `Error` instance) with mutable
      named properties. Whether it is an `Error` is fixed when it is created. */
  class JsObject {
    const isError: bool
    var props: map<string, Value>

    constructor (isError: bool, props: map<string, Value>)
      ensures this.isError == isError && this.props == props
    {
      this.isError := isError;
      this.props := props;
    }
  }

  /** A JavaScript value. Numbers are modelled as integers. */
  datatype Value =
    | Undefined
    | Null
    | Bool(b: bool)
    | Num(n: int)
    | Str(s: string)
    | Func(f: Closure)
    | Obj(o: JsObject)

  /** The `typeof` operator. Note that `typeof null` is "object". */
  function TypeOf(v: Value): (t: string)
    ensures t == "object" <==> v.Null? || v.Obj?
    ensures t == "function" <==> v.Func?
    ensures t == "string" <==> v.Str?
  {
    match v
    case Undefined => "undefined"
    case Null => "object"
    case Bool(_) => "boolean"
    case Num(_) => "number"
    case Str(_) => "string"
    case Func(_) => "function"
    case Obj(_) => "object"
  }

  /** `typeof v === 'string'` */
  predicate IsString(v: Value)
  {
    v.Str?
  }

  /** `typeof v === 'function'` */
  predicate IsFunction(v: Value)
  {
    v.Func?
  }

  /** `typeof v === 'object'`, which holds for `null` too. */
  predicate IsObject(v: Value)
  {
    v.Null? || v.Obj?
  }

  /** The three tag tests agree with `typeof`. */
  lemma TagsAgreeWithTypeOf(v: Value)
    ensures IsString(v) <==> TypeOf(v) == "string"
    ensures IsFunction(v) <==> TypeOf(v) == "function"
    ensures IsObject(v) <==> TypeOf(v) == "object"
  {
  }

  /** JavaScript truthiness, as used by `||`. */
  predicate Truthy(v: Value)
  {
    match v
    case Undefined => false
    case Null => false
    case Bool(b) => b
    case Num(n) => n != 0
    case Str(s) => s != ""
    case Func(_) => true
    case Obj(_) => true
  }

  /** `arguments[k]`: a missing argument reads as `undefined`. */
  function ArgAt(args: seq<Value>, k: nat): Value
  {
    if k < |args| then args[k] else Undefined
  }

  /** Reading a property: a missing property reads as `undefined`. */
  function Prop(props: map<string, Value>, name: string): Value
  {
    if name in props then props[name] else Undefined
  }
}
