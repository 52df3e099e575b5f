/**
 * The Python values the theme's Sphinx event handlers read and write: the
 * per-page template context (a mutable `dict`), the `html_theme_options`
 * configuration, Python truthiness and `str()` formatting, and the
 * exceptions a handler can raise.
 */
module PyValues {
  import opened Options
  import opened Strings

  /** A Python value as it appears in the page context or in the configuration. */
  datatype Value =
    | Nil                                   // None
    | Bool(b: bool)
    | Int(i: int)
    | Str(s: string)
    | List(items: seq<Value>)
    | Dict(entries: map<string, Value>)
    | Asset(filename: string)               // a Sphinx asset object carrying a `filename` attribute
    | Time(epoch: int)                      // an aware `datetime`, as whole seconds since the epoch

  /** The configuration values the handlers read: `None`, booleans, integers and strings. */
  type Scalar = v: Value | v.Nil? || v.Bool? || v.Int? || v.Str? witness Nil

  /** Python's `bool(v)`. */
  predicate Truthy(v: Value) {
    match v
    case Nil => false
    case Bool(b) => b
    case Int(i) => i != 0
    case Str(s) => s != ""
    case List(items) => items != []
    case Dict(entries) => entries != map[]
    case _ => true
  }

  /** Python's `str(v)` (what an f-string inserts) for a configuration value. */
  function Display(v: Scalar): string {
    match v
    case Nil => "None"
    case Bool(b) => if b then "True" else "False"
    case Int(i) => IntToString(i)
    case Str(s) => s
  }

  /**
   * Python's `type(v).__name__`, as error messages show it. Sphinx keeps
   * style sheets and scripts in two asset classes, told apart here by the
   * file's extension.
   */
  function TypeName(v: Value): string {
    match v
    case Nil => "NoneType"
    case Bool(_) => "bool"
    case Int(_) => "int"
    case Str(_) => "str"
    case List(_) => "list"
    case Dict(_) => "dict"
    case Asset(f) => if EndsWith(f, ".css") then "_CascadingStyleSheet" else "_JavaScript"
    case Time(_) => "datetime"
  }

  /** The `TypeError` of `s + v` for a string `s` and a value `v` that is not one. */
  function ConcatError(v: Value): Error {
    TypeError("can only concatenate str (not \"" + TypeName(v) + "\") to str")
  }

  /** The `TypeError` of `v + s` for a value `v` that is not a string. */
  function AddError(v: Value): Error {
    TypeError("unsupported operand type(s) for +: '" + TypeName(v) + "' and 'str'")
  }

  /** The exceptions a handler can raise, with the detail the model keeps. */
  datatype Error =
    | ValueError(message: string)
    | KeyError(key: string)
    | TypeError(message: string)
    | AttributeError(message: string)
    | IndexError(message: string)
    | FileNotFoundError(path: string)

  datatype Result<+T> = Ok(value: T) | Err(error: Error)

  /**
   * What a handler leaves behind: the context dictionary and the exception
   * it raised, if any. Writes made before an exception are kept, as they
   * are in Python.
   */
  datatype Outcome = Outcome(vars: map<string, Value>, raised: Option<Error>)

  /**
   * Where a handler goes after one of its steps: on, with the context as
   * the step left it, or out, with what it leaves behind.
   */
  datatype Step = Continue(vars: map<string, Value>) | Stop(outcome: Outcome)

  /** The context a `Step` leaves, whether the handler goes on or stops. */
  function StepVars(st: Step): map<string, Value> {
    match st
    case Continue(v) => v
    case Stop(o) => o.vars
  }

  /** The part of `app.config.html_theme_options` the handlers read. */
  datatype ThemeOptions = ThemeOptions(
    values: map<string, Scalar>,         // every option except `launch_buttons`
    launchButtons: map<string, Scalar>)  // the `launch_buttons` dictionary (`{}` when absent)

  /** Python's `d.get(key, default)`. */
  function Get(d: map<string, Scalar>, key: string, default: Scalar): (r: Scalar)
    ensures key in d ==> r == d[key]
    ensures key !in d ==> r == default
  {
    if key in d then d[key] else default
  }

  /** Python's `s.strip()` etc. are only defined on strings; anything else raises. */
  function AsStr(v: Value, operation: string): (r: Result<string>)
    ensures r.Ok? <==> v.Str?
    ensures v.Str? ==> r.value == v.s
  {
    if v.Str? then Ok(v.s) else Err(AttributeError(operation))
  }

  /** The per-page template context Sphinx hands to every `html-page-context` handler. */
  class PageContext {
    var vars: map<string, Value>

    constructor(initial: map<string, Value>)
      ensures vars == initial
    {
      vars := initial;
    }
  }
}
