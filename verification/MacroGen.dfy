/** The generators: from a list of handlers to the enums and impls, in the way of `handler_v2` and of `actor_mod`. */
module MacroGen {
  import opened Wrappers
  import opened MacroAst

  /** What is kept of one handler method: the message type, the name its argument has, and its block. */
  datatype HandleMethodInfo<!A, !V> = HandleMethodInfo(messageType: Ident, messageVar: Ident, isAsync: bool,
                                                       block: Block<A, V>)

  function MessageEnum(actor: Ident): Ident { actor + "Message" }
  function ResultEnum(actor: Ident): Ident { actor + "Result" }

  /** `impl From<M> for Message { fn from(msg: M) -> Message { Message::M(msg) } }` */
  function FromItem<A, V>(actor: Ident, messageType: Ident): Item<A, V> {
    FromImpl(messageType, Construct(MessageEnum(actor), messageType, Path("msg")))
  }

  /** A blocking result comes as a `Result` already. */
  function MapResultItem<A, V>(actor: Ident, messageType: Ident, isAsync: bool): Item<A, V> {
    MapResultImpl(messageType,
                  Match("msg", [Arm(Variant(ResultEnum(actor), messageType, "result"),
                                    if isAsync then OkOf("result") else Path("result")),
                                Arm(Wild, Unreachable)]))
  }

  function HandleArm<A, V>(actor: Ident, h: HandleMethodInfo<A, V>): Arm<A, V> {
    Arm(Variant(MessageEnum(actor), h.messageType, h.messageVar),
        Let("result", if h.isAsync then AsyncBlock(h.block) else BlockingCall(h.block),
            Construct(ResultEnum(actor), h.messageType, Await("result"))))
  }

  function Names<A, V>(hs: seq<HandleMethodInfo<A, V>>): seq<Ident> {
    seq(|hs|, k requires 0 <= k < |hs| => hs[k].messageType)
  }

  function FromItems<A, V>(actor: Ident, hs: seq<HandleMethodInfo<A, V>>): seq<Item<A, V>> {
    seq(|hs|, k requires 0 <= k < |hs| => FromItem(actor, hs[k].messageType))
  }

  function MapResultItems<A, V>(actor: Ident, hs: seq<HandleMethodInfo<A, V>>): seq<Item<A, V>> {
    seq(|hs|, k requires 0 <= k < |hs| => MapResultItem(actor, hs[k].messageType, hs[k].isAsync))
  }

  function HandleArms<A, V>(actor: Ident, hs: seq<HandleMethodInfo<A, V>>): seq<Arm<A, V>> {
    seq(|hs|, k requires 0 <= k < |hs| => HandleArm(actor, hs[k]))
  }

  predicate DistinctNames<A, V>(hs: seq<HandleMethodInfo<A, V>>) {
    forall j, k | 0 <= j < k < |hs| :: hs[j].messageType != hs[k].messageType
  }

  /** A message of the k-th handler's type takes the k-th arm. */
  lemma MeetsItsArm<A, V>(actor: Ident, hs: seq<HandleMethodInfo<A, V>>, k: nat, payload: Value<A, V>)
    requires k < |hs| && DistinctNames(hs)
    ensures FirstMatch(HandleArms(actor, hs), Tagged(MessageEnum(actor), hs[k].messageType, payload)) == Some(k)
  {
    FirstMatchAt(HandleArms(actor, hs), Tagged(MessageEnum(actor), hs[k].messageType, payload), k);
  }

  /** What `handler_v2` makes of the methods of one impl block. */
  function HandlerV2<A, V>(actor: Ident, hs: seq<HandleMethodInfo<A, V>>): Program<A, V> {
    Program(MessageEnum(actor), Names(hs), ResultEnum(actor), Names(hs),
            FromItems(actor, hs) + MapResultItems(actor, hs) + [HandlerImpl(Match("msg", HandleArms(actor, hs)))])
  }

  /** The macro's working copy of the actor, which its passes extend one after the other. */
  class ActorInfo<A, V> {
    const actor: Ident
    var messageVariants: seq<Ident>
    var resultVariants: seq<Ident>
    var items: seq<Item<A, V>>

    constructor (actor: Ident)
      ensures this.actor == actor && messageVariants == [] && resultVariants == [] && items == []
    {
      this.actor := actor;
      messageVariants, resultVariants, items := [], [], [];
    }

    method EnumVariants(hs: seq<HandleMethodInfo<A, V>>)
      modifies this
      ensures messageVariants == old(messageVariants) + Names(hs)
      ensures resultVariants == old(resultVariants) + Names(hs)
      ensures items == old(items)
    {
      for k := 0 to |hs|
        invariant messageVariants == old(messageVariants) + Names(hs)[..k]
        invariant resultVariants == old(resultVariants) + Names(hs)[..k]
        invariant items == old(items)
      {
        messageVariants := messageVariants + [hs[k].messageType];
        resultVariants := resultVariants + [hs[k].messageType];
      }
    }

    method FromTrait(hs: seq<HandleMethodInfo<A, V>>)
      modifies this`items
      ensures items == old(items) + FromItems(actor, hs)
    {
      for k := 0 to |hs|
        invariant items == old(items) + FromItems(actor, hs)[..k]
      {
        items := items + [FromItem(actor, hs[k].messageType)];
      }
    }

    method MapResultTrait(hs: seq<HandleMethodInfo<A, V>>)
      modifies this`items
      ensures items == old(items) + MapResultItems(actor, hs)
    {
      for k := 0 to |hs|
        invariant items == old(items) + MapResultItems(actor, hs)[..k]
      {
        items := items + [MapResultItem(actor, hs[k].messageType, hs[k].isAsync)];
      }
    }

    /** The one `handle` of the actor: with distinct message types, a message takes the arm of its own handler. */
    method HandlerTrait(hs: seq<HandleMethodInfo<A, V>>)
      modifies this`items
      ensures |items| == |old(items)| + 1 && items[..|old(items)|] == old(items)
      ensures items[|old(items)|] == HandlerImpl(Match("msg", HandleArms(actor, hs)))
      ensures DistinctNames(hs) ==>
                forall k, payload: Value<A, V> | 0 <= k < |hs| ::
                  FirstMatch(items[|old(items)|].body.arms, Tagged(MessageEnum(actor), hs[k].messageType, payload)) == Some(k)
    {
      var arms: seq<Arm<A, V>> := [];
      for k := 0 to |hs|
        invariant arms == HandleArms(actor, hs)[..k]
      {
        arms := arms + [HandleArm(actor, hs[k])];
      }
      assert arms == HandleArms(actor, hs);
      items := items + [HandlerImpl(Match("msg", arms))];
      if DistinctNames(hs) {
        forall k, payload: Value<A, V> | 0 <= k < |hs|
          ensures FirstMatch(HandleArms(actor, hs), Tagged(MessageEnum(actor), hs[k].messageType, payload)) == Some(k)
        {
          MeetsItsArm(actor, hs, k, payload);
        }
      }
    }
  }

  /** The driver of `handler_v2`. */
  method ExpandHandlerV2<A, V>(actor: Ident, hs: seq<HandleMethodInfo<A, V>>) returns (p: Program<A, V>)
    ensures p == HandlerV2(actor, hs)
  {
    var info := new ActorInfo<A, V>(actor);
    info.EnumVariants(hs);
    info.FromTrait(hs);
    info.MapResultTrait(hs);
    info.HandlerTrait(hs);
    p := Program(MessageEnum(actor), info.messageVariants, ResultEnum(actor), info.resultVariants, info.items);
  }

  // ---- actor_mod ----

  /** A `#[message]` type of the module, and whether its attribute says that it is blocking. */
  datatype MessageParam = MessageParam(ident: Ident, isBlocking: bool)

  /** The first argument name and block of a `#[handler]` impl found in the module. */
  datatype HandleMethod<!A, !V> = HandleMethod(argIdent: Ident, messageIdent: Ident, block: Block<A, V>)

  /** The first handler for a message; without one the macro panics. */
  function FindMethod<A, V>(methods: seq<HandleMethod<A, V>>, ident: Ident): Option<HandleMethod<A, V>> {
    if methods == [] then None
    else if methods[0].messageIdent == ident then Some(methods[0])
    else FindMethod(methods[1..], ident)
  }

  /** The messages that the handlers are for. */
  function Idents<A, V>(methods: seq<HandleMethod<A, V>>): seq<Ident> {
    seq(|methods|, m requires 0 <= m < |methods| => methods[m].messageIdent)
  }

  lemma {:induction false} FindMethodFinds<A, V>(methods: seq<HandleMethod<A, V>>, ident: Ident)
    ensures FindMethod(methods, ident).None? <==> !(ident in Idents(methods))
    ensures FindMethod(methods, ident).Some? ==> FindMethod(methods, ident).value.messageIdent == ident
  {
    if methods != [] {
      FindMethodFinds(methods[1..], ident);
      assert Idents(methods) == [methods[0].messageIdent] + Idents(methods[1..]);
    }
  }

  predicate Handled<A, V>(params: seq<MessageParam>, methods: seq<HandleMethod<A, V>>) {
    forall k | 0 <= k < |params| :: FindMethod(methods, params[k].ident).Some?
  }

  lemma HandledMeans<A, V>(params: seq<MessageParam>, methods: seq<HandleMethod<A, V>>)
    ensures Handled(params, methods) <==> forall k | 0 <= k < |params| :: params[k].ident in Idents(methods)
  {
    forall k | 0 <= k < |params| ensures FindMethod(methods, params[k].ident).Some? <==> params[k].ident in Idents(methods) {
      FindMethodFinds(methods, params[k].ident);
    }
  }

  /** Pairing each message with its handler gives what `handler_v2` would start from. */
  function Paired<A, V>(params: seq<MessageParam>, methods: seq<HandleMethod<A, V>>): seq<HandleMethodInfo<A, V>>
    requires Handled(params, methods)
  {
    seq(|params|, k requires 0 <= k < |params| =>
      var m := FindMethod(methods, params[k].ident).value;
      HandleMethodInfo(params[k].ident, m.argIdent, !params[k].isBlocking, m.block))
  }

  function PairItems<A, V>(actor: Ident, hs: seq<HandleMethodInfo<A, V>>): seq<Item<A, V>> {
    seq(2 * |hs|, n requires 0 <= n < 2 * |hs| =>
      if n % 2 == 0 then FromItem(actor, hs[n / 2].messageType)
      else MapResultItem(actor, hs[n / 2].messageType, hs[n / 2].isAsync))
  }

  function ActorMod<A, V>(actor: Ident, hs: seq<HandleMethodInfo<A, V>>): Program<A, V> {
    Program(MessageEnum(actor), Names(hs), ResultEnum(actor), Names(hs),
            PairItems(actor, hs) + [HandlerImpl(Match("msg", HandleArms(actor, hs)))])
  }

  /** One arm a message, of the first handler for it; a message without one is the end of the expansion. */
  method ExpandArms<A, V>(actor: Ident, params: seq<MessageParam>, methods: seq<HandleMethod<A, V>>)
    returns (arms: Option<seq<Arm<A, V>>>)
    ensures arms.Some? <==> Handled(params, methods)
    ensures arms.Some? ==> arms.value == HandleArms(actor, Paired(params, methods))
  {
    var done: seq<Arm<A, V>> := [];
    for k := 0 to |params|
      invariant |done| == k
      invariant forall j | 0 <= j < k :: FindMethod(methods, params[j].ident).Some?
      invariant forall j | 0 <= j < k ::
                  var m := FindMethod(methods, params[j].ident).value;
                  done[j] == HandleArm(actor, HandleMethodInfo(params[j].ident, m.argIdent, !params[j].isBlocking, m.block))
    {
      var found := FindMethod(methods, params[k].ident);
      if found.None? {
        return None;
      }
      var info := HandleMethodInfo(params[k].ident, found.value.argIdent, !params[k].isBlocking, found.value.block);
      done := done + [HandleArm(actor, info)];
    }
    assert done == HandleArms(actor, Paired(params, methods));
    arms := Some(done);
  }

  /** One pass over the messages pushes both impls of each message, one after the other. */
  method ExpandActorMod<A, V>(actor: Ident, params: seq<MessageParam>, methods: seq<HandleMethod<A, V>>)
    returns (p: Option<Program<A, V>>)
    ensures p.Some? <==> forall k | 0 <= k < |params| :: params[k].ident in Idents(methods)
    ensures p.Some? <==> Handled(params, methods)
    ensures p.Some? ==> p.value == ActorMod(actor, Paired(params, methods))
  {
    HandledMeans(params, methods);
    hide Idents;
    var variants: seq<Ident> := [];
    var items: seq<Item<A, V>> := [];
    for k := 0 to |params|
      invariant |variants| == k && |items| == 2 * k
      invariant forall j | 0 <= j < k :: variants[j] == params[j].ident
      invariant forall j | 0 <= j < k :: items[2 * j] == FromItem(actor, params[j].ident)
      invariant forall j | 0 <= j < k :: items[2 * j + 1] == MapResultItem(actor, params[j].ident, !params[j].isBlocking)
    {
      variants := variants + [params[k].ident];
      items := items + [FromItem(actor, params[k].ident)]
                     + [MapResultItem(actor, params[k].ident, !params[k].isBlocking)];
    }
    var arms := ExpandArms(actor, params, methods);
    if arms.None? {
      return None;
    }
    ghost var hs := Paired(params, methods);
    assert variants == Names(hs);
    assert items == PairItems(actor, hs);
    p := Some(Program(MessageEnum(actor), variants, ResultEnum(actor), variants,
                      items + [HandlerImpl(Match("msg", arms.value))]));
  }
}
