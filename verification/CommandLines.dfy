/** What the printed command lines say: flags and values read back, and which flags with which values there are. */
module CommandLines {
  import opened JsonValues
  import opened Texts
  import opened Sorting
  import opened VllmArgs
  import opened VllmFlagCounts
  import opened DynamoArgs

  predicate LooksLikeFlag(token: string) {
    "--" <= token
  }

  /** How an argument parser reads a line: a token after a flag is its value unless it looks like a flag itself. */
  function ReadFlags(tokens: seq<string>): seq<Flag> {
    if tokens == [] then []
    else
      var key := if |tokens[0]| >= 2 then tokens[0][2..] else "";
      if |tokens| > 1 && !LooksLikeFlag(tokens[1]) then [Flag(key, Some(tokens[1]))] + ReadFlags(tokens[2..])
      else [Flag(key, None)] + ReadFlags(tokens[1..])
  }

  predicate PlainValues(flags: seq<Flag>) {
    forall f <- flags :: f.value.Some? ==> !LooksLikeFlag(f.value.value)
  }

  lemma FlagLooksLikeOne(key: string)
    ensures LooksLikeFlag("--" + key) && ("--" + key)[2..] == key
  {
    assert ("--" + key)[..2] == "--";
  }

  /** Printed flags read back, keys and values, as long as no value looks like a flag. */
  lemma {:induction false} FlagsReadBack(flags: seq<Flag>)
    requires PlainValues(flags)
    ensures ReadFlags(AllTokens(flags)) == flags
    decreases |flags|
  {
    if flags != [] {
      var f, rest := flags[0], flags[1..];
      FlagsReadBack(rest);
      FlagLooksLikeOne(f.key);
      var tokens := AllTokens(flags);
      assert tokens == Tokens(f) + AllTokens(rest) && tokens[0] == "--" + f.key;
      if f.value.Some? {
        assert tokens[1] == f.value.value && tokens[2..] == AllTokens(rest);
      } else {
        assert tokens[1..] == AllTokens(rest);
        if rest != [] {
          FlagLooksLikeOne(rest[0].key);
        }
      }
      assert flags == [f] + rest;
    }
  }

  // ----- Which flags with which values -----

  /** What the spec asks for, leaving the user's own flags aside. */
  predicate Wanted(e: Engine, w: Worker, f: Flag) {
    || f == Flag("host", Some("0.0.0.0"))
    || f == Flag("port", Some("8000"))
    || f == Flag("model", Some(e.modelId))
    || (e.servedName != "" && f == Flag("served-model-name", Some(e.servedName)))
    || (e.contextLength.Some? && f == Flag("max-model-len", Some(Decimal(e.contextLength.value))))
    || (e.trustRemoteCode && f == Flag("trust-remote-code", None))
    || (e.enforceEager && f == Flag("enforce-eager", None))
    || (e.enablePrefixCaching == Some(true) && f == Flag("enable-prefix-caching", None))
    || (e.enablePrefixCaching == Some(false) && f == Flag("no-enable-prefix-caching", None))
    || (w.gpus > 1 && f == Flag("tensor-parallel-size", Some(Decimal(w.gpus))))
    || (w.gpus == 0 && e.gpus.Some? && e.gpus.value > 1 && f == Flag("tensor-parallel-size", Some(Decimal(e.gpus.value))))
    || (w.kvTransferConfig != "" && f == Flag("kv-transfer-config", Some(w.kvTransferConfig)))
  }

  /** The user sets the same thing. */
  predicate Overridden(e: Engine, f: Flag) {
    if f.key in {"enable-prefix-caching", "no-enable-prefix-caching"} then
      "enable-prefix-caching" in ExplicitKeys(e) || "no-enable-prefix-caching" in ExplicitKeys(e)
    else f.key != "kv-transfer-config" && f.key in ExplicitKeys(e)
  }

  lemma {:induction false} InDerivedUpTo(e: Engine, w: Worker, explicit: set<string>, f: Flag, n: nat)
    requires n <= 10
    ensures f in DerivedUpTo(e, w, explicit, n) <==> exists s :: Rank(s) < n && Derived(e, w, explicit, s) == Some(f)
  {
    if n > 0 {
      InDerivedUpTo(e, w, explicit, f, n - 1);
      var last := Order(n - 1);
      RankOfOrder(n - 1);
      assert forall s | Rank(s) == n - 1 :: s == last by {
        forall s | Rank(s) == n - 1
          ensures s == last
        {
          OrderOfRank(s);
        }
      }
      assert f in Single(Derived(e, w, explicit, last)) <==> Derived(e, w, explicit, last) == Some(f);
    }
  }

  lemma DerivedFlagIsWanted(e: Engine, w: Worker, s: Setting, f: Flag)
    requires Acceptable(e) && Derived(e, w, ExplicitKeys(e), s) == Some(f)
    ensures Wanted(e, w, f) && !Overridden(e, f)
  {
    HostAndPortAreNotExplicit(e);
    match s
    case Host =>
    case Port =>
    case Model =>
    case ServedName =>
    case MaxLength =>
    case TrustRemote =>
    case Eager =>
    case PrefixCaching =>
    case Parallel =>
    case KvTransfer =>
  }

  lemma WantedFlagHasSetting(e: Engine, w: Worker, f: Flag) returns (s: Setting)
    requires Wanted(e, w, f)
    ensures f.key in Names(s)
  {
    s := if f.key == "host" then Host else if f.key == "port" then Port else if f.key == "model" then Model
         else if f.key == "served-model-name" then ServedName else if f.key == "max-model-len" then MaxLength
         else if f.key == "trust-remote-code" then TrustRemote else if f.key == "enforce-eager" then Eager
         else if f.key == "tensor-parallel-size" then Parallel else if f.key == "kv-transfer-config" then KvTransfer
         else PrefixCaching;
  }

  lemma WantedFlagIsDerived(e: Engine, w: Worker, f: Flag, s: Setting)
    requires Wanted(e, w, f) && !Overridden(e, f) && f.key in Names(s)
    ensures Derived(e, w, ExplicitKeys(e), s) == Some(f)
  {
    NamesAreNotShared(s, f.key);
    match s
    case Host =>
    case Port =>
    case Model =>
    case ServedName =>
    case MaxLength =>
    case TrustRemote =>
    case Eager =>
    case PrefixCaching =>
    case Parallel =>
    case KvTransfer =>
  }

  /** The derived flags, with their values, are exactly what the spec asks for and the user does not set. */
  lemma DerivedExactly(e: Engine, w: Worker, f: Flag)
    requires Acceptable(e)
    ensures f in DerivedFlags(e, w) <==> Wanted(e, w, f) && !Overridden(e, f)
  {
    InDerivedUpTo(e, w, ExplicitKeys(e), f, 10);
    if Wanted(e, w, f) && !Overridden(e, f) {
      var s := WantedFlagHasSetting(e, w, f);
      WantedFlagIsDerived(e, w, f, s);
      OrderOfRank(s);
    }
    if f in DerivedFlags(e, w) {
      var s :| Rank(s) < 10 && Derived(e, w, ExplicitKeys(e), s) == Some(f);
      DerivedFlagIsWanted(e, w, s, f);
    }
  }

  /** Dynamo: the flags derived for the worker's engine, with their values. */
  predicate WantedByDynamo(e: Engine, engine: EngineType, f: Flag) {
    || (engine in {Vllm, Llamacpp} && f == Flag("model", Some(e.modelId)))
    || (engine in {Sglang, Trtllm} && f == Flag("model-path", Some(e.modelId)))
    || (e.servedName != "" && f == Flag("served-model-name", Some(e.servedName)))
    || (e.contextLength.Some? && engine == Vllm && f == Flag("max-model-len", Some(Decimal(e.contextLength.value))))
    || (e.contextLength.Some? && engine == Sglang && f == Flag("context-length", Some(Decimal(e.contextLength.value))))
    || (e.trustRemoteCode && engine in {Vllm, Sglang} && f == Flag("trust-remote-code", None))
    || (e.enablePrefixCaching == Some(true) && engine == Vllm && f == Flag("enable-prefix-caching", None))
    || (e.enablePrefixCaching == Some(false) && engine == Vllm && f == Flag("no-enable-prefix-caching", None))
    || (e.enablePrefixCaching == Some(false) && engine == Sglang && f == Flag("disable-radix-cache", None))
    || (e.enforceEager && engine in {Vllm, Sglang} && f == Flag("enforce-eager", None))
  }

  lemma {:induction false} InStructuredUpTo(e: Engine, engine: EngineType, f: Flag, n: nat)
    requires n <= 6
    ensures f in StructuredUpTo(e, engine, n) <==> exists i: nat :: i < n && Structured(e, engine, i) == Some(f)
  {
    if n > 0 {
      InStructuredUpTo(e, engine, f, n - 1);
      assert f in Single(Structured(e, engine, n - 1)) <==> Structured(e, engine, n - 1) == Some(f);
    }
  }

  lemma StructuredIffWanted(e: Engine, engine: EngineType, f: Flag)
    ensures WantedByDynamo(e, engine, f) <==>
              || Structured(e, engine, 0) == Some(f) || Structured(e, engine, 1) == Some(f) || Structured(e, engine, 2) == Some(f)
              || Structured(e, engine, 3) == Some(f) || Structured(e, engine, 4) == Some(f) || Structured(e, engine, 5) == Some(f)
  {
  }

  lemma StructuredExactly(e: Engine, engine: EngineType, f: Flag)
    ensures f in StructuredFlags(e, engine) <==> WantedByDynamo(e, engine, f)
  {
    InStructuredUpTo(e, engine, f, 6);
    StructuredIffWanted(e, engine, f);
  }

  lemma {:induction false} InArgFlags(args: map<string, string>, keys: seq<string>, skipped: set<string>, f: Flag)
    requires forall k <- keys :: k in args
    ensures f in ArgFlags(args, keys, skipped) <==> f.key in keys && f.key !in skipped && f == FlagOfArg(args, f.key)
    decreases |keys|
  {
    if keys != [] {
      InArgFlags(args, keys[1..], skipped, f);
      assert f.key in keys <==> f.key == keys[0] || f.key in keys[1..];
    }
  }

  lemma {:induction false} ArgFlagsSorted(args: map<string, string>, keys: seq<string>, skipped: set<string>)
    requires Sorted(keys) && forall k <- keys :: k in args
    ensures var flags := ArgFlags(args, keys, skipped); forall i, j | 0 <= i < j < |flags| :: StringLeq(flags[i].key, flags[j].key)
    decreases |keys|
  {
    if keys != [] {
      ArgFlagsSorted(args, keys[1..], skipped);
      var rest := ArgFlags(args, keys[1..], skipped);
      forall j | 0 <= j < |rest|
        ensures StringLeq(keys[0], rest[j].key)
      {
        InArgFlags(args, keys[1..], skipped, rest[j]);
        assert rest[j].key in keys[1..];
      }
    }
  }

  /** The flags of the map: every key that is not skipped, with its value unless that is empty, in sorted order. */
  lemma MapFlagsExactly(args: map<string, string>, skipped: set<string>, f: Flag)
    ensures var flags := MapFlags(args, skipped);
            && (f in flags <==> f.key in args && f.key !in skipped && f.value == if args[f.key] == "" then None else Some(args[f.key]))
            && forall i, j | 0 <= i < j < |flags| :: StringLeq(flags[i].key, flags[j].key)
  {
    SortedKeysAreKeys(args.Keys);
    InArgFlags(args, SortedKeys(args.Keys), skipped, f);
    SortSorted(Listing(args.Keys));
    ArgFlagsSorted(args, SortedKeys(args.Keys), skipped);
  }

  /** vLLM: the line reads back as the derived flags and then the map's, and the user's raw tokens end it unchanged. */
  lemma VllmLineReadsBack(e: Engine, w: Worker)
    requires PlainValues(DerivedFlags(e, w) + MapFlags(e.args, {}))
    ensures var line := RenderedArgs(e, w);
            var n := |line| - |e.extraArgs|;
            n >= 0 && line[n..] == e.extraArgs && ReadFlags(line[..n]) == DerivedFlags(e, w) + MapFlags(e.args, {})
  {
    var flags := DerivedFlags(e, w) + MapFlags(e.args, {});
    TokensConcat(DerivedFlags(e, w), MapFlags(e.args, {}));
    assert RenderedArgs(e, w) == AllTokens(flags) + e.extraArgs;
    assert (AllTokens(flags) + e.extraArgs)[..|AllTokens(flags)|] == AllTokens(flags);
    FlagsReadBack(flags);
  }

  lemma DynamoLineReadsBack(e: Engine, engine: EngineType)
    requires EngineArgs(e, engine).Success?
    requires PlainValues(StructuredFlags(e, engine) + MapFlags(e.args, Consumed(engine)))
    ensures var line := EngineArgs(e, engine).value;
            var n := |line| - |e.extraArgs|;
            && n >= 0 && line[n..] == e.extraArgs
            && ReadFlags(line[..n]) == StructuredFlags(e, engine) + MapFlags(e.args, Consumed(engine))
  {
    var flags := StructuredFlags(e, engine) + MapFlags(e.args, Consumed(engine));
    TokensConcat(StructuredFlags(e, engine), MapFlags(e.args, Consumed(engine)));
    assert EngineArgs(e, engine).value == AllTokens(flags) + e.extraArgs;
    assert (AllTokens(flags) + e.extraArgs)[..|AllTokens(flags)|] == AllTokens(flags);
    FlagsReadBack(flags);
  }

  // ----- Which errors -----

  /** The token comes first among those of its kind. */
  ghost predicate IsFirst(tokens: seq<string>, token: string, bad: string -> bool) {
    exists i :: 0 <= i < |tokens| && tokens[i] == token && bad(token) && forall j | 0 <= j < i :: !bad(tokens[j])
  }

  lemma {:induction false} FirstThatIsFirst(tokens: seq<string>, bad: string -> bool)
    ensures var first := FirstThat(tokens, bad); first.Some? ==> IsFirst(tokens, first.value, bad)
    decreases |tokens|
  {
    if tokens != [] && !bad(tokens[0]) {
      FirstThatIsFirst(tokens[1..], bad);
      var first := FirstThat(tokens[1..], bad);
      if first.Some? {
        var i :| 0 <= i < |tokens[1..]| && tokens[1..][i] == first.value && forall j | 0 <= j < i :: !bad(tokens[1..][j]);
        assert tokens[i + 1] == first.value;
        assert forall j | 0 < j < i + 1 :: tokens[j] == tokens[1..][j - 1];
      }
    }
  }

  /** The errors in their order: a reserved map key, then a reserved raw token, then a token for a key of the map, then
      an invalid key. Each names the first of its kind, for invalid keys the first in sorted order. */
  lemma ErrorsInOrder(e: Engine, w: Worker, order: seq<string>)
    requires IsOrder(order, e.args.Keys)
    ensures var answer := Answer(e, w, order);
            answer.Failure? ==>
              match answer.error
              case ReservedArg(key) => IsFirst(order, key, IsReserved)
              case ReservedExtraArg(arg) =>
                (forall k <- e.args.Keys :: !IsReserved(k)) && IsFirst(e.extraArgs, arg, ReservedToken)
              case SetTwice(arg) =>
                && (forall k <- e.args.Keys :: !IsReserved(k)) && (forall t <- e.extraArgs :: !ReservedToken(t))
                && IsFirst(e.extraArgs, arg, Colliding(e))
              case InvalidKey(key) =>
                && (forall k <- e.args.Keys :: !IsReserved(k))
                && (forall t <- e.extraArgs :: !ReservedToken(t) && !CollidingToken(e, t))
                && IsFirst(SortedKeys(e.args.Keys), key, Invalid({}))
  {
    OrderHasTheKeys(e, order);
    NoneIsBad(order, IsReserved);
    NoneIsBad(e.extraArgs, ReservedToken);
    NoneIsBad(e.extraArgs, Colliding(e));
    FirstThatIsFirst(order, IsReserved);
    FirstThatIsFirst(e.extraArgs, ReservedToken);
    FirstThatIsFirst(e.extraArgs, Colliding(e));
    FirstThatIsFirst(SortedKeys(e.args.Keys), Invalid({}));
    if LaterError(e).Some? && LaterError(e).value.InvalidKey? {
      assert forall t <- e.extraArgs :: !Colliding(e)(t);
    }
  }

  // ----- Which tokens set which flag -----

  lemma {:induction false} TrimRightStopsAt(before: string, c: char, after: string)
    requires !IsSpace(c)
    ensures TrimRight(before + [c] + after) == before + [c] + TrimRight(after)
    decreases |after|
  {
    var s := before + [c] + after;
    if after == "" {
      assert s == before + [c];
    } else if IsSpace(after[|after| - 1]) {
      assert s[..|s| - 1] == before + [c] + after[..|after| - 1];
      TrimRightStopsAt(before, c, after[..|after| - 1]);
    }
  }

  lemma UpToEqualsOf(key: string, after: string)
    requires '=' !in key
    ensures UpToEquals(key + "=" + after) == key
  {
    var s := key + "=" + after;
    assert forall k | 0 <= k < |key| :: s[k] == key[k];
    assert s[|key|] == '=';
    assert IndexOf(s, '=') == Some(|key|);
    assert s[..|key|] == key;
  }

  /** A key with an inline value sets the key, whatever the value; a token without two dashes sets nothing. */
  lemma InlineValueSetsTheKey(key: string, value: string)
    requires IsValidArgKey(key)
    ensures ExtraArgKey("--" + key + "=" + value) == Some(key)
    ensures !LooksLikeFlag(value) ==> ExtraArgKey(value).None?
  {
    assert ("--" + key + "=" + value)[2..] == key + "=" + value;
    assert key[0] in key;
    assert '=' !in key;
    UpToEqualsOf(key, value);
    TrimValid(key);
  }

  lemma DashesAreDropped(text: string)
    requires text != "" && text[0] != '-'
    ensures TrimDashes("--" + text) == text && TrimDashes(text) == text
  {
    assert ("--" + text)[1..] == "-" + text && ("-" + text)[1..] == text;
    assert TrimDashes("-" + text) == TrimDashes(text);
  }

  lemma BareKeyIsNormal(key: string)
    requires IsValidArgKey(key)
    ensures NormalizedKey(key) == key && NormalizedKey("--" + key) == key
  {
    TrimValid(key);
    assert key[|key| - 1] in key;
    NothingToTrim("--" + key);
    DashesAreDropped(key);
  }

  lemma InlineKeyIsNormal(key: string, value: string)
    requires IsValidArgKey(key)
    ensures NormalizedKey("--" + key + "=" + value) == key
  {
    var rest := key + "=" + TrimRight(value);
    TrimRightStopsAt("--" + key, '=', value);
    assert Trim("--" + key + "=" + value) == "--" + rest;
    DashesAreDropped(rest);
    assert '=' !in key;
    UpToEqualsOf(key, TrimRight(value));
    TrimValid(key);
  }

  /** host and port are refused in every way of writing them: bare, as a flag, and as a flag with an inline value. No
      other valid key is. */
  lemma ReservedExactly(key: string, value: string)
    requires IsValidArgKey(key)
    ensures IsReserved(key) <==> key == "host" || key == "port"
    ensures IsReserved("--" + key) <==> key == "host" || key == "port"
    ensures IsReserved("--" + key + "=" + value) <==> key == "host" || key == "port"
  {
    BareKeyIsNormal(key);
    InlineKeyIsNormal(key, value);
  }

  lemma ReservedTokensExactly(key: string, value: string)
    requires IsValidArgKey(key)
    ensures ReservedToken("--" + key) <==> key == "host" || key == "port"
    ensures ReservedToken("--" + key + "=" + value) <==> key == "host" || key == "port"
  {
    ReservedExactly(key, value);
    FlagTokenReadsBack(key);
    InlineValueSetsTheKey(key, value);
  }
}
