/** The code that the macros generate, small as it is, and what it does when a message is sent. */
module MacroAst {
  import opened Wrappers

  type Ident = string

  datatype Error = Blocking | Other(code: nat)
  datatype Result<V> = Ok(value: V) | Err(error: Error)

  /** The statements of a handler. Detached code does not touch the actor, so it may run on another thread. */
  datatype Code<!A, !V> = Inline(onActor: (A, V) -> (A, V)) | Detached(alone: V -> V)

  /** A method block: its statements refer to the message by the name `uses`. */
  datatype Block<!A, !V> = Block(uses: Ident, code: Code<A, V>)

  datatype Pattern = Variant(enumName: Ident, variant: Ident, bind: Ident) | Wild

  datatype Arm<!A, !V> = Arm(pattern: Pattern, body: Expr<A, V>)

  datatype Expr<!A, !V> =
    | Path(name: Ident)
    | Construct(enumName: Ident, variant: Ident, arg: Expr<A, V>)
    | AsyncBlock(block: Block<A, V>)
    | BlockingCall(block: Block<A, V>)
    | Await(name: Ident)
    | OkOf(name: Ident)
    | Unreachable
    | Let(name: Ident, bound: Expr<A, V>, rest: Expr<A, V>)
    | Match(name: Ident, arms: seq<Arm<A, V>>)

  datatype Item<!A, !V> =
    | FromImpl(source: Ident, body: Expr<A, V>)
    | MapResultImpl(source: Ident, body: Expr<A, V>)
    | HandlerImpl(body: Expr<A, V>)

  datatype Program<!A, !V> = Program(messageEnum: Ident, messageVariants: seq<Ident>,
                                     resultEnum: Ident, resultVariants: seq<Ident>, items: seq<Item<A, V>>)

  // ---- Values and evaluation ----

  datatype Value<!A, !V> =
    | Plain(value: V)
    | Tagged(enumName: Ident, variant: Ident, arg: Value<A, V>)
    | Task(code: Code<A, V>, captured: V, blocking: bool)
    | Res(result: Result<V>)

  type Env<!A, !V> = map<Ident, Value<A, V>>

  predicate Declared<A, V>(p: Program<A, V>, enumName: Ident, variant: Ident) {
    (enumName == p.messageEnum && variant in p.messageVariants) || (enumName == p.resultEnum && variant in p.resultVariants)
  }

  function RunCode<A, V>(code: Code<A, V>, a: A, v: V): (A, V) {
    match code
    case Inline(onActor) => onActor(a, v)
    case Detached(alone) => (a, alone(v))
  }

  predicate Matches<A, V>(pattern: Pattern, v: Value<A, V>) {
    pattern.Variant? ==> v.Tagged? && v.enumName == pattern.enumName && v.variant == pattern.variant
  }

  /** The first arm that matches, as in Rust. */
  function FirstMatch<A, V>(arms: seq<Arm<A, V>>, v: Value<A, V>): (r: Option<nat>)
    ensures r.Some? ==> r.value < |arms| && Matches(arms[r.value].pattern, v)
  {
    if arms == [] then None
    else if Matches(arms[0].pattern, v) then Some(0)
    else
      match FirstMatch(arms[1..], v)
      case None => None
      case Some(k) => Some(k + 1)
  }

  lemma {:induction false} FirstMatchAt<A, V>(arms: seq<Arm<A, V>>, v: Value<A, V>, k: nat)
    requires k < |arms| && Matches(arms[k].pattern, v)
    requires forall j | 0 <= j < k :: !Matches(arms[j].pattern, v)
    ensures FirstMatch(arms, v) == Some(k)
  {
    if k > 0 {
      FirstMatchAt(arms[1..], v, k - 1);
    }
  }

  /** `None` stands for code that would not compile or that reaches `unreachable!()`. `joins` says whether a task on
      the blocking pool comes back. */
  function Eval<A, V>(p: Program<A, V>, e: Expr<A, V>, env: Env<A, V>, a: A, joins: bool): Option<(Value<A, V>, A)>
    decreases e
  {
    match e
    case Path(name) => if name in env then Some((env[name], a)) else None
    case Construct(enumName, variant, arg) =>
      (match Eval(p, arg, env, a, joins)
       case None => None
       case Some((v, b)) => if Declared(p, enumName, variant) then Some((Tagged(enumName, variant, v), b)) else None)
    case AsyncBlock(block) =>
      if block.uses in env && env[block.uses].Plain? then Some((Task(block.code, env[block.uses].value, false), a)) else None
    case BlockingCall(block) =>
      if block.uses in env && env[block.uses].Plain? && block.code.Detached? then
        Some((Task(block.code, env[block.uses].value, true), a))
      else None
    case Await(name) =>
      if name in env && env[name].Task? then
        var task := env[name];
        var (b, v) := RunCode(task.code, a, task.captured);
        if task.blocking then Some((Res(if joins then Ok(v) else Err(Blocking)), b)) else Some((Plain(v), b))
      else None
    case OkOf(name) => if name in env && env[name].Plain? then Some((Res(Ok(env[name].value)), a)) else None
    case Unreachable => None
    case Let(name, bound, rest) =>
      (match Eval(p, bound, env, a, joins)
       case None => None
       case Some((v, b)) => Eval(p, rest, env[name := v], b, joins))
    case Match(name, arms) =>
      if name in env then
        match FirstMatch(arms, env[name])
        case None => None
        case Some(k) =>
          var arm := arms[k];
          var inner := if arm.pattern.Variant? then env[arm.pattern.bind := env[name].arg] else env;
          Eval(p, arm.body, inner, a, joins)
      else None
  }

  // ---- Sending a message ----

  function FindFrom<A, V>(items: seq<Item<A, V>>, source: Ident): Option<Expr<A, V>> {
    if items == [] then None
    else if items[0].FromImpl? && items[0].source == source then Some(items[0].body)
    else FindFrom(items[1..], source)
  }

  function FindMapResult<A, V>(items: seq<Item<A, V>>, source: Ident): Option<Expr<A, V>> {
    if items == [] then None
    else if items[0].MapResultImpl? && items[0].source == source then Some(items[0].body)
    else FindMapResult(items[1..], source)
  }

  function FindHandler<A, V>(items: seq<Item<A, V>>): Option<Expr<A, V>> {
    if items == [] then None
    else if items[0].HandlerImpl? then Some(items[0].body)
    else FindHandler(items[1..])
  }

  function Call<A, V>(p: Program<A, V>, body: Option<Expr<A, V>>, arg: Value<A, V>, a: A,
                      joins: bool): Option<(Value<A, V>, A)>
  {
    if body.None? then None else Eval(p, body.value, map["msg" := arg], a, joins)
  }

  /** `Address::send`: into the message enum, through the actor's `handle`, out of the result enum. */
  function Send<A, V>(p: Program<A, V>, a: A, source: Ident, payload: V, joins: bool): Option<(Result<V>, A)> {
    match Call(p, FindFrom(p.items, source), Plain(payload), a, joins)
    case None => None
    case Some((msg, a1)) =>
      match Call(p, FindHandler(p.items), msg, a1, joins)
      case None => None
      case Some((res, a2)) =>
        match Call(p, FindMapResult(p.items, source), res, a2, joins)
        case None => None
        case Some((out, a3)) => if out.Res? then Some((out.result, a3)) else None
  }
}
