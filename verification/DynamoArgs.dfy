/** Engine arguments of a Dynamo worker. */
module DynamoArgs {
  import opened JsonValues
  import opened Texts
  import opened Sorting
  import opened VllmArgs
  import opened VllmFlagCounts

  function ModelFlag(engine: EngineType): string {
    if engine in {Sglang, Trtllm} then "model-path" else "model"
  }

  /** The n-th thing that buildEngineArgs derives from the spec, whatever else the user sets. */
  function Structured(e: Engine, engine: EngineType, n: nat): Option<Flag>
    requires n < 6
  {
    match n
    case 0 => Some(Flag(ModelFlag(engine), Some(e.modelId)))
    case 1 => When(e.servedName != "", Flag("served-model-name", Some(e.servedName)))
    case 2 =>
      if e.contextLength.None? then None
      else if engine == Vllm then Some(Flag("max-model-len", Some(Decimal(e.contextLength.value))))
      else When(engine == Sglang, Flag("context-length", Some(Decimal(e.contextLength.value))))
    case 3 => When(e.trustRemoteCode && engine in {Vllm, Sglang}, Flag("trust-remote-code", None))
    case 4 =>
      if e.enablePrefixCaching.None? then None
      else if engine == Vllm then
        Some(Flag(if e.enablePrefixCaching.value then "enable-prefix-caching" else "no-enable-prefix-caching", None))
      else When(engine == Sglang && !e.enablePrefixCaching.value, Flag("disable-radix-cache", None))
    case _ => When(e.enforceEager && engine in {Vllm, Sglang}, Flag("enforce-eager", None))
  }

  function StructuredUpTo(e: Engine, engine: EngineType, n: nat): seq<Flag>
    requires n <= 6
  {
    if n == 0 then [] else StructuredUpTo(e, engine, n - 1) + Single(Structured(e, engine, n - 1))
  }

  function StructuredFlags(e: Engine, engine: EngineType): seq<Flag> {
    StructuredUpTo(e, engine, 6)
  }

  /** "connector" is meant for the controller and not for vLLM. */
  function Consumed(engine: EngineType): set<string> {
    if engine == Vllm then {"connector"} else {}
  }

  /** The answer depends on the spec alone: the map's iteration order never shows. */
  ghost function EngineArgs(e: Engine, engine: EngineType): Result<seq<string>, ArgsError> {
    match FirstThat(SortedKeys(e.args.Keys), Invalid(Consumed(engine)))
    case Some(k) => Failure(InvalidKey(k))
    case None => Success(AllTokens(StructuredFlags(e, engine)) + AllTokens(MapFlags(e.args, Consumed(engine))) + e.extraArgs)
  }

  // ----- The code -----

  method DeriveFlags(e: Engine, engine: EngineType) returns (tokens: seq<string>)
    ensures tokens == AllTokens(StructuredFlags(e, engine))
  {
    var modelArg := "model";
    if engine == Sglang || engine == Trtllm {
      modelArg := "model-path";
    }
    tokens := Emit([], true, Flag(modelArg, Some(e.modelId)), StructuredUpTo(e, engine, 0));
    tokens := Emit(tokens, e.servedName != "", Flag("served-model-name", Some(e.servedName)), StructuredUpTo(e, engine, 1));
    var length := if e.contextLength.Some? then Decimal(e.contextLength.value) else "";
    var lengthArg := if engine == Vllm then "max-model-len" else "context-length";
    var known := engine == Vllm || engine == Sglang;
    tokens := Emit(tokens, e.contextLength.Some? && known, Flag(lengthArg, Some(length)), StructuredUpTo(e, engine, 2));
    tokens := DeriveSwitches(tokens, e, engine);
  }

  method DeriveSwitches(before: seq<string>, e: Engine, engine: EngineType) returns (tokens: seq<string>)
    requires before == AllTokens(StructuredUpTo(e, engine, 3))
    ensures tokens == AllTokens(StructuredFlags(e, engine))
  {
    var known := engine == Vllm || engine == Sglang;
    tokens := Emit(before, e.trustRemoteCode && known, Flag("trust-remote-code", None), StructuredUpTo(e, engine, 3));
    var caching, cachingArg := false, "";
    if e.enablePrefixCaching.Some? {
      if engine == Vllm {
        caching, cachingArg := true, if e.enablePrefixCaching.value then "enable-prefix-caching" else "no-enable-prefix-caching";
      } else if engine == Sglang && !e.enablePrefixCaching.value {
        caching, cachingArg := true, "disable-radix-cache";
      }
    }
    tokens := Emit(tokens, caching, Flag(cachingArg, None), StructuredUpTo(e, engine, 4));
    tokens := Emit(tokens, e.enforceEager && known, Flag("enforce-eager", None), StructuredUpTo(e, engine, 5));
  }

  method BuildEngineArgs(e: Engine, engine: EngineType) returns (answer: Result<seq<string>, ArgsError>)
    ensures answer == EngineArgs(e, engine)
  {
    var tokens := DeriveFlags(e, engine);
    var keys := CollectSorted(e.args.Keys);
    SortedKeysAreKeys(e.args.Keys);
    answer := AppendArgs(tokens, e.args, keys, Consumed(engine));
    if answer.Success? {
      answer := Success(answer.value + e.extraArgs);
    }
  }

  // ----- How often a flag is there -----

  /** Which flags the spec asks for, by name. */
  predicate Asked(e: Engine, engine: EngineType, name: string) {
    || name == ModelFlag(engine)
    || (name == "served-model-name" && e.servedName != "")
    || (name == "max-model-len" && engine == Vllm && e.contextLength.Some?)
    || (name == "context-length" && engine == Sglang && e.contextLength.Some?)
    || (name == "trust-remote-code" && engine in {Vllm, Sglang} && e.trustRemoteCode)
    || (name == "enable-prefix-caching" && engine == Vllm && e.enablePrefixCaching == Some(true))
    || (name == "no-enable-prefix-caching" && engine == Vllm && e.enablePrefixCaching == Some(false))
    || (name == "disable-radix-cache" && engine == Sglang && e.enablePrefixCaching == Some(false))
    || (name == "enforce-eager" && engine in {Vllm, Sglang} && e.enforceEager)
  }

  /** The place at which a flag of that name can be derived. */
  function Place(name: string): nat {
    if |name| == 0 then 6
    else if |name| == 5 || |name| == 10 then 0
    else if |name| == 17 then if name[0] == 's' then 1 else 3
    else if |name| == 13 then if name[0] == 'm' then 2 else 5
    else if |name| == 14 then 2
    else 4
  }

  lemma DerivedInItsPlace(e: Engine, engine: EngineType, n: nat)
    requires n < 6
    ensures Structured(e, engine, n).Some? ==> Place(Structured(e, engine, n).value.key) == n
  {
  }

  lemma OtherNamesAreValid(name: string)
    requires name in {"model-path", "context-length", "disable-radix-cache"}
    ensures IsValidArgKey(name)
  {
  }

  lemma StructuredNameIsValid(e: Engine, engine: EngineType, n: nat)
    requires n < 6 && Structured(e, engine, n).Some?
    ensures IsValidArgKey(Structured(e, engine, n).value.key)
  {
    var name := Structured(e, engine, n).value.key;
    if name in {"model-path", "context-length", "disable-radix-cache"} {
      OtherNamesAreValid(name);
    } else {
      NamesAreValid([Model, ServedName, MaxLength, TrustRemote, PrefixCaching, Eager][n], name);
    }
  }

  lemma AskedIffDerived(e: Engine, engine: EngineType, name: string)
    ensures Asked(e, engine, name) <==>
              Place(name) < 6 && Structured(e, engine, Place(name)).Some? && Structured(e, engine, Place(name)).value.key == name
  {
  }

  lemma {:induction false} StructuredKeys(e: Engine, engine: EngineType, n: nat, name: string)
    requires n <= 6
    ensures forall f <- StructuredUpTo(e, engine, n) :: IsValidArgKey(f.key)
    ensures Copies(StructuredUpTo(e, engine, n), {name}) == if Place(name) < n && Asked(e, engine, name) then 1 else 0
  {
    if n > 0 {
      StructuredKeys(e, engine, n - 1, name);
      var last := Structured(e, engine, n - 1);
      DerivedInItsPlace(e, engine, n - 1);
      if last.Some? {
        StructuredNameIsValid(e, engine, n - 1);
      }
      AskedIffDerived(e, engine, name);
      CopiesConcat(StructuredUpTo(e, engine, n - 1), Single(last), {name});
      assert Copies(Single(last), {name}) == if last.Some? && last.value.key == name then 1 else 0;
    }
  }

  /** Every name, before the raw tokens: one copy if the spec asks for the flag, and one more if the map holds it.
      Unlike the vLLM provider Dynamo lets neither replace the other. */
  lemma FlagsRepeatExactly(e: Engine, engine: EngineType, name: string)
    ensures Copies(StructuredFlags(e, engine) + MapFlags(e.args, Consumed(engine)), {name})
         == (if Asked(e, engine, name) then 1 else 0) + (if name in e.args && !(engine == Vllm && name == "connector") then 1 else 0)
  {
    StructuredKeys(e, engine, 6, name);
    AskedIffDerived(e, engine, name);
    CopiesConcat(StructuredFlags(e, engine), MapFlags(e.args, Consumed(engine)), {name});
    EachMapKeyOnce(e.args, Consumed(engine), name);
  }

  /** Every name, on the command line itself: the same two copies, the user's raw tokens, and whatever values happen to
      read like that flag. */
  lemma FlagsOnTheLine(e: Engine, engine: EngineType, name: string)
    requires EngineArgs(e, engine).Success?
    ensures Naming(EngineArgs(e, engine).value, name)
         == (if Asked(e, engine, name) then 1 else 0) + (if name in e.args && !(engine == Vllm && name == "connector") then 1 else 0)
            + Naming(e.extraArgs, name)
            + Naming(Values(StructuredFlags(e, engine)), name) + Naming(Values(MapFlags(e.args, Consumed(engine))), name)
  {
    NoneIsBad(SortedKeys(e.args.Keys), Invalid(Consumed(engine)));
    SortedKeysAreKeys(e.args.Keys);
    StructuredKeys(e, engine, 6, name);
    AskedIffDerived(e, engine, name);
    NamingOnTheLine(StructuredFlags(e, engine), e.args, Consumed(engine), e.extraArgs, name);
  }

  /** Which maps Dynamo accepts: every key has to be valid. */
  lemma SucceedsExactly(e: Engine, engine: EngineType)
    ensures EngineArgs(e, engine).Success? <==> forall k <- e.args.Keys :: IsValidArgKey(k)
  {
    SortedKeysAreKeys(e.args.Keys);
    NoneIsBad(SortedKeys(e.args.Keys), Invalid(Consumed(engine)));
    assert IsValidArgKey("connector");
    if forall k <- e.args.Keys :: IsValidArgKey(k) {
      assert forall k <- SortedKeys(e.args.Keys) :: !Invalid(Consumed(engine))(k);
    } else {
      var k :| k in e.args.Keys && !IsValidArgKey(k);
      assert k in SortedKeys(e.args.Keys) && Invalid(Consumed(engine))(k);
    }
  }
}
