/** The generated dispatch means what the handler methods mean. */
module MacroMeaning {
  import opened Wrappers
  import opened MacroAst
  import opened MacroGen

  /** What the user's own method does with a message: its effect, and its value, which for a blocking method may be
      lost with the thread. */
  function OwnMethod<A, V>(h: HandleMethodInfo<A, V>, a: A, payload: V, joins: bool): (Result<V>, A) {
    match h.block.code
    case Inline(onActor) => (if h.isAsync || joins then Ok(onActor(a, payload).1) else Err(Blocking), onActor(a, payload).0)
    case Detached(alone) => (if h.isAsync || joins then Ok(alone(payload)) else Err(Blocking), a)
  }

  /** The block names its own argument, and a blocking block leaves the actor alone: otherwise the method itself
      would not compile. */
  predicate WellFormed<A, V>(h: HandleMethodInfo<A, V>) {
    h.block.uses == h.messageVar && (!h.isAsync ==> h.block.code.Detached?)
  }

  // ---- Finding impls and arms ----

  lemma {:induction false} FindFromAt<A, V>(items: seq<Item<A, V>>, source: Ident, k: nat)
    requires k < |items| && items[k].FromImpl? && items[k].source == source
    requires forall j | 0 <= j < k :: !items[j].FromImpl? || items[j].source != source
    ensures FindFrom(items, source) == Some(items[k].body)
  {
    if k > 0 {
      FindFromAt(items[1..], source, k - 1);
    }
  }

  lemma {:induction false} FindFromMisses<A, V>(items: seq<Item<A, V>>, source: Ident)
    requires forall j | 0 <= j < |items| :: !items[j].FromImpl? || items[j].source != source
    ensures FindFrom(items, source) == None
  {
    if items != [] {
      FindFromMisses(items[1..], source);
    }
  }

  lemma {:induction false} FindMapResultAt<A, V>(items: seq<Item<A, V>>, source: Ident, k: nat)
    requires k < |items| && items[k].MapResultImpl? && items[k].source == source
    requires forall j | 0 <= j < k :: !items[j].MapResultImpl? || items[j].source != source
    ensures FindMapResult(items, source) == Some(items[k].body)
  {
    if k > 0 {
      FindMapResultAt(items[1..], source, k - 1);
    }
  }

  lemma {:induction false} FindHandlerAt<A, V>(items: seq<Item<A, V>>, k: nat)
    requires k < |items| && items[k].HandlerImpl?
    requires forall j | 0 <= j < k :: !items[j].HandlerImpl?
    ensures FindHandler(items) == Some(items[k].body)
  {
    if k > 0 {
      FindHandlerAt(items[1..], k - 1);
    }
  }

  // ---- One message through a program ----

  /** The program has, for the handler at `k`, the impls that both generators make. */
  ghost predicate Serves<A, V>(p: Program<A, V>, actor: Ident, hs: seq<HandleMethodInfo<A, V>>, k: nat)
    requires k < |hs|
  {
    && p.messageEnum == MessageEnum(actor) && p.resultEnum == ResultEnum(actor)
    && hs[k].messageType in p.messageVariants && hs[k].messageType in p.resultVariants
    && FindFrom(p.items, hs[k].messageType) == Some(FromItem<A, V>(actor, hs[k].messageType).body)
    && FindMapResult(p.items, hs[k].messageType)
       == Some(MapResultItem<A, V>(actor, hs[k].messageType, hs[k].isAsync).body)
    && FindHandler(p.items) == Some(Match("msg", HandleArms(actor, hs)))
  }

  lemma FromMeans<A, V>(p: Program<A, V>, actor: Ident, hs: seq<HandleMethodInfo<A, V>>, k: nat, a: A, payload: V,
                        joins: bool)
    requires k < |hs| && Serves(p, actor, hs, k)
    ensures Call(p, FindFrom(p.items, hs[k].messageType), Plain(payload), a, joins)
         == Some((Tagged(MessageEnum(actor), hs[k].messageType, Plain(payload)), a))
  {
    var env: Env<A, V> := map["msg" := Plain(payload)];
    assert Eval(p, Path("msg"), env, a, joins) == Some((Plain(payload), a));
  }

  /** What the arm of a handler leaves in the result enum. */
  function ArmResult<A, V>(h: HandleMethodInfo<A, V>, a: A, payload: V, joins: bool): (Value<A, V>, A) {
    var (b, v) := RunCode(h.block.code, a, payload);
    (if h.isAsync then Plain(v) else Res(if joins then Ok(v) else Err(Blocking)), b)
  }

  lemma HandleMeans<A, V>(p: Program<A, V>, actor: Ident, hs: seq<HandleMethodInfo<A, V>>, k: nat, a: A, payload: V,
                          joins: bool)
    requires k < |hs| && Serves(p, actor, hs, k) && DistinctNames(hs) && WellFormed(hs[k])
    ensures var msg := Tagged(MessageEnum(actor), hs[k].messageType, Plain(payload));
            var (v, b) := ArmResult(hs[k], a, payload, joins);
            Call(p, FindHandler(p.items), msg, a, joins)
            == Some((Tagged(ResultEnum(actor), hs[k].messageType, v), b))
  {
    var h := hs[k];
    var msg: Value<A, V> := Tagged(MessageEnum(actor), h.messageType, Plain(payload));
    var arms := HandleArms(actor, hs);
    MeetsItsArm(actor, hs, k, Plain(payload));
    var env: Env<A, V> := map["msg" := msg];
    var inner := env[h.messageVar := Plain(payload)];
    ArmMeans(p, actor, h, inner, a, payload, joins);
    assert arms[k] == HandleArm(actor, h);
    assert Eval(p, Match("msg", arms), env, a, joins) == Eval(p, arms[k].body, inner, a, joins);
  }

  lemma ArmMeans<A, V>(p: Program<A, V>, actor: Ident, h: HandleMethodInfo<A, V>, env: Env<A, V>, a: A, payload: V,
                       joins: bool)
    requires WellFormed(h) && h.messageVar in env && env[h.messageVar] == Plain(payload)
    requires p.resultEnum == ResultEnum(actor) && h.messageType in p.resultVariants
    ensures var (v, b) := ArmResult(h, a, payload, joins);
            Eval(p, HandleArm(actor, h).body, env, a, joins)
            == Some((Tagged(ResultEnum(actor), h.messageType, v), b))
  {
    var bound := if h.isAsync then AsyncBlock(h.block) else BlockingCall(h.block);
    var task: Value<A, V> := Task(h.block.code, payload, !h.isAsync);
    assert Eval(p, bound, env, a, joins) == Some((task, a));
    var inner := env["result" := task];
    var (v, b) := ArmResult(h, a, payload, joins);
    assert Eval(p, Await("result"), inner, a, joins) == Some((v, b));
    assert Eval(p, Construct(ResultEnum(actor), h.messageType, Await("result")), inner, a, joins)
        == Some((Tagged(ResultEnum(actor), h.messageType, v), b));
  }

  lemma MapResultMeans<A, V>(p: Program<A, V>, actor: Ident, hs: seq<HandleMethodInfo<A, V>>, k: nat, a: A, v: Value<A, V>,
                             joins: bool)
    requires k < |hs| && Serves(p, actor, hs, k)
    requires if hs[k].isAsync then v.Plain? else v.Res?
    ensures Call(p, FindMapResult(p.items, hs[k].messageType), Tagged(ResultEnum(actor), hs[k].messageType, v), a, joins)
         == Some((if hs[k].isAsync then Res(Ok(v.value)) else v, a))
  {
    var body := MapResultItem<A, V>(actor, hs[k].messageType, hs[k].isAsync).body;
    var tagged := Tagged(ResultEnum(actor), hs[k].messageType, v);
    FirstMatchAt(body.arms, tagged, 0);
    var env: Env<A, V> := map["msg" := tagged];
    assert Eval(p, body, env, a, joins) == Eval(p, body.arms[0].body, env["result" := v], a, joins);
  }

  /** Sending a message has exactly the effect and the result of its own method, and no `unreachable!()` is reached. */
  lemma ServedIsOwnMethod<A, V>(p: Program<A, V>, actor: Ident, hs: seq<HandleMethodInfo<A, V>>, k: nat, a: A, payload: V,
                                joins: bool)
    requires k < |hs| && Serves(p, actor, hs, k) && DistinctNames(hs) && WellFormed(hs[k])
    ensures Send(p, a, hs[k].messageType, payload, joins) == Some(OwnMethod(hs[k], a, payload, joins))
  {
    hide Eval, FindFrom, FindMapResult, FindHandler, HandleArms, Serves;
    FromMeans(p, actor, hs, k, a, payload, joins);
    HandleMeans(p, actor, hs, k, a, payload, joins);
    var (v, b) := ArmResult(hs[k], a, payload, joins);
    MapResultMeans(p, actor, hs, k, b, v, joins);
  }

  // ---- Both generators ----

  lemma HandlerV2Serves<A, V>(actor: Ident, hs: seq<HandleMethodInfo<A, V>>, k: nat)
    requires k < |hs| && DistinctNames(hs)
    ensures Serves(HandlerV2(actor, hs), actor, hs, k)
  {
    var p := HandlerV2(actor, hs);
    var n := |hs|;
    FindFromAt(p.items, hs[k].messageType, k);
    FindMapResultAt(p.items, hs[k].messageType, n + k);
    FindHandlerAt(p.items, 2 * n);
    assert Names(hs)[k] == hs[k].messageType;
  }

  lemma ActorModServes<A, V>(actor: Ident, hs: seq<HandleMethodInfo<A, V>>, k: nat)
    requires k < |hs| && DistinctNames(hs)
    ensures Serves(ActorMod(actor, hs), actor, hs, k)
  {
    var p := ActorMod(actor, hs);
    assert p.items[2 * k] == PairItems(actor, hs)[2 * k] == FromItem(actor, hs[k].messageType);
    assert p.items[2 * k + 1] == PairItems(actor, hs)[2 * k + 1];
    forall j | 0 <= j < 2 * |hs| ensures p.items[j] == PairItems(actor, hs)[j] {
    }
    FindFromAt(p.items, hs[k].messageType, 2 * k);
    FindMapResultAt(p.items, hs[k].messageType, 2 * k + 1);
    FindHandlerAt(p.items, 2 * |hs|);
    assert Names(hs)[k] == hs[k].messageType;
  }

  /** `handler_v2`: every message is dispatched to its own method. */
  lemma HandlerV2KeepsMeaning<A, V>(actor: Ident, hs: seq<HandleMethodInfo<A, V>>, k: nat, a: A, payload: V, joins: bool)
    requires k < |hs| && DistinctNames(hs) && WellFormed(hs[k])
    ensures Send(HandlerV2(actor, hs), a, hs[k].messageType, payload, joins) == Some(OwnMethod(hs[k], a, payload, joins))
  {
    HandlerV2Serves(actor, hs, k);
    ServedIsOwnMethod(HandlerV2(actor, hs), actor, hs, k, a, payload, joins);
  }

  /** `actor_mod`: the same, each message being paired with the handler that names it, wherever that stands. */
  lemma ActorModKeepsMeaning<A, V>(actor: Ident, params: seq<MessageParam>, methods: seq<HandleMethod<A, V>>, k: nat,
                                   m: nat, a: A, payload: V, joins: bool)
    requires Handled(params, methods) && k < |params| && m < |methods|
    requires forall i, j | 0 <= i < j < |params| :: params[i].ident != params[j].ident
    requires forall i, j | 0 <= i < j < |methods| :: methods[i].messageIdent != methods[j].messageIdent
    requires methods[m].messageIdent == params[k].ident
    requires var h := HandleMethodInfo(params[k].ident, methods[m].argIdent, !params[k].isBlocking, methods[m].block);
             WellFormed(h)
    ensures var h := HandleMethodInfo(params[k].ident, methods[m].argIdent, !params[k].isBlocking, methods[m].block);
            Send(ActorMod(actor, Paired(params, methods)), a, params[k].ident, payload, joins)
            == Some(OwnMethod(h, a, payload, joins))
  {
    var hs := Paired(params, methods);
    FindMethodAt(methods, params[k].ident, m);
    ActorModServes(actor, hs, k);
    ServedIsOwnMethod(ActorMod(actor, hs), actor, hs, k, a, payload, joins);
  }

  lemma {:induction false} FindMethodAt<A, V>(methods: seq<HandleMethod<A, V>>, ident: Ident, m: nat)
    requires m < |methods| && methods[m].messageIdent == ident
    requires forall j | 0 <= j < m :: methods[j].messageIdent != ident
    ensures FindMethod(methods, ident) == Some(methods[m])
  {
    if m > 0 {
      FindMethodAt(methods[1..], ident, m - 1);
    }
  }

  /** Two lists describe the same handlers when they do so in some order. */
  ghost predicate SameHandlers<A, V>(hs: seq<HandleMethodInfo<A, V>>, gs: seq<HandleMethodInfo<A, V>>) {
    && (forall k | 0 <= k < |hs| :: hs[k] in gs)
    && (forall k | 0 <= k < |gs| :: gs[k] in hs)
  }

  /** From the same handlers, in whatever order, both macros generate dispatch that cannot be told apart. */
  lemma BothMacrosAgree<A, V>(actor: Ident, hs: seq<HandleMethodInfo<A, V>>, gs: seq<HandleMethodInfo<A, V>>,
                              a: A, source: Ident, payload: V, joins: bool)
    requires DistinctNames(hs) && DistinctNames(gs) && SameHandlers(hs, gs)
    requires forall k | 0 <= k < |hs| :: WellFormed(hs[k])
    ensures Send(ActorMod(actor, hs), a, source, payload, joins) == Send(HandlerV2(actor, gs), a, source, payload, joins)
  {
    if k :| 0 <= k < |hs| && hs[k].messageType == source {
      var g :| 0 <= g < |gs| && gs[g] == hs[k];
      ActorModServes(actor, hs, k);
      ServedIsOwnMethod(ActorMod(actor, hs), actor, hs, k, a, payload, joins);
      HandlerV2KeepsMeaning(actor, gs, g, a, payload, joins);
    } else {
      forall g | 0 <= g < |gs| ensures gs[g].messageType != source {
        assert gs[g] in hs;
      }
      UnhandledIsRejected(actor, hs, a, source, payload, joins);
      UnhandledIsRejected(actor, gs, a, source, payload, joins);
    }
  }

  /** A message type without a handler cannot be sent at all, in either. */
  lemma UnhandledIsRejected<A, V>(actor: Ident, hs: seq<HandleMethodInfo<A, V>>, a: A, source: Ident, payload: V,
                                  joins: bool)
    requires forall k | 0 <= k < |hs| :: hs[k].messageType != source
    ensures Send(HandlerV2(actor, hs), a, source, payload, joins).None?
    ensures Send(ActorMod(actor, hs), a, source, payload, joins).None?
  {
    FindFromMisses(HandlerV2(actor, hs).items, source);
    FindFromMisses(ActorMod(actor, hs).items, source);
  }

  // ---- No two definitions of the same thing ----

  predicate SameImpl<A, V>(x: Item<A, V>, y: Item<A, V>) {
    || (x.FromImpl? && y.FromImpl? && x.source == y.source)
    || (x.MapResultImpl? && y.MapResultImpl? && x.source == y.source)
    || (x.HandlerImpl? && y.HandlerImpl?)
  }

  /** Nothing is defined twice: the enums, their variants, the impls. */
  ghost predicate Coherent<A, V>(p: Program<A, V>) {
    && p.messageEnum != p.resultEnum
    && (forall j, k | 0 <= j < k < |p.messageVariants| :: p.messageVariants[j] != p.messageVariants[k])
    && (forall j, k | 0 <= j < k < |p.resultVariants| :: p.resultVariants[j] != p.resultVariants[k])
    && (forall j, k | 0 <= j < k < |p.items| :: !SameImpl(p.items[j], p.items[k]))
  }

  lemma CoherentNames<A, V>(p: Program<A, V>, hs: seq<HandleMethodInfo<A, V>>)
    requires Coherent(p) && p.messageVariants == Names(hs)
    ensures DistinctNames(hs)
  {
    forall j, k | 0 <= j < k < |hs| ensures hs[j].messageType != hs[k].messageType {
      assert p.messageVariants[j] != p.messageVariants[k];
    }
  }

  lemma EnumNamesDiffer(actor: Ident)
    ensures MessageEnum(actor) != ResultEnum(actor)
  {
    assert |MessageEnum(actor)| != |ResultEnum(actor)|;
  }

  /** What either macro generates is free of double definitions exactly if the message types are distinct. */
  lemma HandlerV2IsCoherent<A, V>(actor: Ident, hs: seq<HandleMethodInfo<A, V>>)
    ensures Coherent(HandlerV2(actor, hs)) <==> DistinctNames(hs)
  {
    var p := HandlerV2(actor, hs);
    EnumNamesDiffer(actor);
    if DistinctNames(hs) {
      forall j, k | 0 <= j < k < |p.items| ensures !SameImpl(p.items[j], p.items[k]) {
      }
    } else if Coherent(p) {
      CoherentNames(p, hs);
    }
  }

  lemma ActorModIsCoherent<A, V>(actor: Ident, hs: seq<HandleMethodInfo<A, V>>)
    ensures Coherent(ActorMod(actor, hs)) <==> DistinctNames(hs)
  {
    var p := ActorMod(actor, hs);
    EnumNamesDiffer(actor);
    if DistinctNames(hs) {
      forall j, k | 0 <= j < k < |p.items| ensures !SameImpl(p.items[j], p.items[k]) {
        assert j < 2 * |hs| && p.items[j] == PairItems(actor, hs)[j];
        assert k < 2 * |hs| ==> p.items[k] == PairItems(actor, hs)[k];
      }
    } else if Coherent(p) {
      CoherentNames(p, hs);
    }
  }
}
