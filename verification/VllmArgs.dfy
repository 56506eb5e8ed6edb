/** Command-line arguments of the vLLM server: flags derived from the spec, the engine.args map and the raw
    engine.extraArgs tokens. */
module VllmArgs {
  import opened JsonValues
  import opened Texts
  import opened Sorting

  datatype EngineType = Vllm | Sglang | Trtllm | Llamacpp

  /** What the model deployment says about the engine. */
  datatype Engine = Engine(
    modelId: string, servedName: string, contextLength: Option<int>, trustRemoteCode: bool, enforceEager: bool,
    enablePrefixCaching: Option<bool>, gpus: Option<int>, args: map<string, string>, extraArgs: seq<string>)

  /** What a prefill or a decode worker adds: its own GPU count, if it is not zero, and how it moves the KV cache. */
  datatype Worker = Worker(gpus: int, kvTransferConfig: string)

  datatype ArgsError = ReservedArg(key: string) | ReservedExtraArg(arg: string) | SetTwice(arg: string) | InvalidKey(key: string)

  /** extraArgKey: the flag a raw token sets, if it is a "--flag" or "--flag=value" token. */
  function ExtraArgKey(arg: string): Option<string> {
    if |arg| <= 2 || arg[..2] != "--" || arg[2] == '-' then None
    else
      var key := Trim(UpToEquals(arg[2..]));
      if key == "" then None else Some(key)
  }

  function UpToEquals(s: string): string {
    match IndexOf(s, '=') case None => s case Some(i) => s[..i]
  }

  function TrimDashes(s: string): string {
    if s != "" && s[0] == '-' then TrimDashes(s[1..]) else s
  }

  /** The key behind outer space, leading dashes and an inline value. */
  function NormalizedKey(key: string): string {
    Trim(UpToEquals(TrimDashes(Trim(key))))
  }

  /** isReservedVLLMServerArg. */
  predicate IsReserved(key: string) {
    NormalizedKey(key) == "host" || NormalizedKey(key) == "port"
  }

  predicate ValidKeyChar(c: char) {
    'a' <= c <= 'z' || 'A' <= c <= 'Z' || '0' <= c <= '9' || c == '-' || c == '_'
  }

  /** isValidArgKey. */
  predicate IsValidArgKey(key: string) {
    key != "" && key[0] != '-' && forall c <- key :: ValidKeyChar(c)
  }

  /** The keys the user sets explicitly, in the map or in raw tokens. */
  function ExplicitKeys(e: Engine): set<string> {
    e.args.Keys + TokenKeys(e.extraArgs)
  }

  function TokenKeys(tokens: seq<string>): set<string> {
    if tokens == [] then {} else KeyOfToken(tokens[0]) + TokenKeys(tokens[1..])
  }

  function KeyOfToken(arg: string): set<string> {
    match ExtraArgKey(arg) case None => {} case Some(key) => {key}
  }

  lemma {:induction false} TokenKeysAreKeys(tokens: seq<string>)
    ensures forall key :: key in TokenKeys(tokens) <==> exists arg <- tokens :: ExtraArgKey(arg) == Some(key)
    decreases |tokens|
  {
    if tokens != [] {
      TokenKeysAreKeys(tokens[1..]);
      assert forall arg :: arg in tokens <==> arg == tokens[0] || arg in tokens[1..];
    }
  }

  // ----- The flags derived from the spec -----

  datatype Flag = Flag(key: string, value: Option<string>)

  function Tokens(flag: Flag): seq<string> {
    ["--" + flag.key] + if flag.value.Some? then [flag.value.value] else []
  }

  function AllTokens(flags: seq<Flag>): seq<string> {
    if flags == [] then [] else Tokens(flags[0]) + AllTokens(flags[1..])
  }

  function Decimal(n: int): string {
    if n < 0 then "-" + ToDecimal(-n) else ToDecimal(n)
  }

  function TensorParallel(e: Engine, w: Worker): int {
    if w.gpus == 0 && e.gpus.Some? then e.gpus.value else w.gpus
  }

  /** What the derived flags set. */
  datatype Setting = Host | Port | Model | ServedName | MaxLength | TrustRemote | Eager | PrefixCaching | Parallel | KvTransfer

  function When(emit: bool, flag: Flag): Option<Flag> {
    if emit then Some(flag) else None
  }

  function Single(flag: Option<Flag>): seq<Flag> {
    if flag.Some? then [flag.value] else []
  }

  /** The flag derived for a setting, if it is asked for and the user does not set it explicitly. */
  function Derived(e: Engine, w: Worker, explicit: set<string>, s: Setting): Option<Flag> {
    match s
    case Host => Some(Flag("host", Some("0.0.0.0")))
    case Port => Some(Flag("port", Some("8000")))
    case Model => When("model" !in explicit, Flag("model", Some(e.modelId)))
    case ServedName => When(e.servedName != "" && "served-model-name" !in explicit, Flag("served-model-name", Some(e.servedName)))
    case MaxLength =>
      if e.contextLength.None? then None
      else When("max-model-len" !in explicit, Flag("max-model-len", Some(Decimal(e.contextLength.value))))
    case TrustRemote => When(e.trustRemoteCode && "trust-remote-code" !in explicit, Flag("trust-remote-code", None))
    case Eager => When(e.enforceEager && "enforce-eager" !in explicit, Flag("enforce-eager", None))
    case PrefixCaching =>
      if e.enablePrefixCaching.None? || "enable-prefix-caching" in explicit || "no-enable-prefix-caching" in explicit then None
      else Some(Flag(if e.enablePrefixCaching.value then "enable-prefix-caching" else "no-enable-prefix-caching", None))
    case Parallel =>
      var count := TensorParallel(e, w);
      When(count > 1 && "tensor-parallel-size" !in explicit, Flag("tensor-parallel-size", Some(Decimal(count))))
    case KvTransfer => When(w.kvTransferConfig != "", Flag("kv-transfer-config", Some(w.kvTransferConfig)))
  }

  /** The order in which the code emits them. */
  function Order(n: nat): Setting
    requires n < 10
  {
    match n
    case 0 => Host
    case 1 => Port
    case 2 => Model
    case 3 => ServedName
    case 4 => MaxLength
    case 5 => TrustRemote
    case 6 => Eager
    case 7 => PrefixCaching
    case 8 => Parallel
    case _ => KvTransfer
  }

  /** The flags derived for the first n settings. */
  function DerivedUpTo(e: Engine, w: Worker, explicit: set<string>, n: nat): seq<Flag>
    requires n <= 10
  {
    if n == 0 then [] else DerivedUpTo(e, w, explicit, n - 1) + Single(Derived(e, w, explicit, Order(n - 1)))
  }

  function DerivedFlags(e: Engine, w: Worker): seq<Flag> {
    DerivedUpTo(e, w, ExplicitKeys(e), 10)
  }

  function FlagOfArg(args: map<string, string>, key: string): Flag
    requires key in args
  {
    Flag(key, if args[key] != "" then Some(args[key]) else None)
  }

  /** The flags of the map, in the given order of its keys. */
  function ArgFlags(args: map<string, string>, keys: seq<string>, skipped: set<string>): seq<Flag>
    requires forall k <- keys :: k in args
  {
    if keys == [] then []
    else (if keys[0] in skipped then [] else [FlagOfArg(args, keys[0])]) + ArgFlags(args, keys[1..], skipped)
  }

  // ----- Errors -----

  predicate ReservedToken(arg: string) {
    ExtraArgKey(arg).Some? && IsReserved(ExtraArgKey(arg).value)
  }

  predicate CollidingToken(e: Engine, arg: string) {
    ExtraArgKey(arg).Some? && ExtraArgKey(arg).value in e.args
  }

  /** What the flags a user sets have to meet. */
  predicate Acceptable(e: Engine) {
    && (forall k <- e.args.Keys :: !IsReserved(k) && IsValidArgKey(k))
    && (forall arg <- e.extraArgs :: !ReservedToken(arg))
    && e.args.Keys !! TokenKeys(e.extraArgs)
  }

  function FirstThat(tokens: seq<string>, bad: string -> bool): Option<string> {
    if tokens == [] then None else if bad(tokens[0]) then Some(tokens[0]) else FirstThat(tokens[1..], bad)
  }

  lemma {:induction false} NoneIsBad(tokens: seq<string>, bad: string -> bool)
    ensures FirstThat(tokens, bad).None? <==> forall t <- tokens :: !bad(t)
    decreases |tokens|
  {
    if tokens != [] {
      NoneIsBad(tokens[1..], bad);
    }
  }

  function Invalid(skipped: set<string>): string -> bool {
    k => k !in skipped && !IsValidArgKey(k)
  }

  function Colliding(e: Engine): string -> bool {
    arg => CollidingToken(e, arg)
  }

  /** An order in which a range over a map may visit its keys. */
  ghost predicate IsOrder(order: seq<string>, keys: set<string>) {
    multiset(order) == multiset(keys)
  }

  /** validateReservedVLLMServerArgs, whose range over the map meets the keys in the given order. */
  function ReservedError(e: Engine, order: seq<string>): Option<ArgsError> {
    match FirstThat(order, IsReserved)
    case Some(key) => Some(ReservedArg(key))
    case None =>
      match FirstThat(e.extraArgs, ReservedToken)
      case Some(arg) => Some(ReservedExtraArg(arg))
      case None => None
  }

  /** The errors found after that, which depend on the spec alone. */
  ghost function LaterError(e: Engine): Option<ArgsError> {
    match FirstThat(e.extraArgs, Colliding(e))
    case Some(arg) => Some(SetTwice(arg))
    case None =>
      match FirstThat(SortedKeys(e.args.Keys), Invalid({}))
      case Some(k) => Some(InvalidKey(k))
      case None => None
  }

  /** What buildVLLMArgs answers when its first range over the map takes the keys in the given order. */
  ghost function Answer(e: Engine, w: Worker, order: seq<string>): Result<seq<string>, ArgsError> {
    match ReservedError(e, order)
    case Some(err) => Failure(err)
    case None =>
      match LaterError(e)
      case Some(err) => Failure(err)
      case None => Success(RenderedArgs(e, w))
  }

  ghost function MapFlags(args: map<string, string>, skipped: set<string>): seq<Flag> {
    SortedKeysAreKeys(args.Keys);
    ArgFlags(args, SortedKeys(args.Keys), skipped)
  }

  ghost function RenderedArgs(e: Engine, w: Worker): seq<string> {
    AllTokens(DerivedFlags(e, w)) + AllTokens(MapFlags(e.args, {})) + e.extraArgs
  }

  lemma SortedKeysAreKeys(keys: set<string>)
    ensures forall k :: k in SortedKeys(keys) <==> k in keys
  {
    forall k
      ensures k in SortedKeys(keys) <==> k in keys
    {
      assert k in SortedKeys(keys) <==> k in multiset(SortedKeys(keys));
      assert multiset(SortedKeys(keys)) == multiset(keys);
    }
  }

  lemma {:induction false} TokensConcat(a: seq<Flag>, b: seq<Flag>)
    ensures AllTokens(a + b) == AllTokens(a) + AllTokens(b)
    decreases |a|
  {
    if a == [] {
      assert a + b == b;
    } else {
      TokensConcat(a[1..], b);
      assert (a + b)[1..] == a[1..] + b;
    }
  }

  /** What one key of the map adds. */
  lemma FirstArgFlag(args: map<string, string>, keys: seq<string>, skipped: set<string>)
    requires keys != [] && forall k <- keys :: k in args
    ensures AllTokens(ArgFlags(args, keys, skipped))
         == (if keys[0] in skipped then [] else Tokens(FlagOfArg(args, keys[0]))) + AllTokens(ArgFlags(args, keys[1..], skipped))
  {
    if keys[0] !in skipped {
      assert ArgFlags(args, keys, skipped)[1..] == ArgFlags(args, keys[1..], skipped);
    } else {
      assert ArgFlags(args, keys, skipped) == ArgFlags(args, keys[1..], skipped);
    }
  }

  // ----- The code -----

  method ValidateReserved(e: Engine, order: seq<string>) returns (err: Option<ArgsError>)
    requires IsOrder(order, e.args.Keys)
    ensures err == ReservedError(e, order)
  {
    var key := FindToken(order, IsReserved);
    if key.Some? {
      return Some(ReservedArg(key.value));
    }
    var arg := FindToken(e.extraArgs, ReservedToken);
    if arg.Some? {
      return Some(ReservedExtraArg(arg.value));
    }
    return None;
  }

  /** The loops over map keys and raw tokens that return at the first bad one. */
  method FindToken(tokens: seq<string>, bad: string -> bool) returns (first: Option<string>)
    ensures first == FirstThat(tokens, bad)
  {
    for i := 0 to |tokens|
      invariant FirstThat(tokens, bad) == FirstThat(tokens[i..], bad)
    {
      assert tokens[i..][1..] == tokens[i + 1..];
      if bad(tokens[i]) {
        return Some(tokens[i]);
      }
    }
    return None;
  }

  method PrintArg(args: map<string, string>, key: string) returns (tokens: seq<string>)
    requires key in args
    ensures tokens == Tokens(FlagOfArg(args, key))
  {
    if args[key] != "" {
      tokens := ["--" + key, args[key]];
    } else {
      tokens := ["--" + key];
    }
  }

  /** The loop over the sorted keys, which Dynamo's buildEngineArgs shares up to the key it skips. */
  method AppendArgs(tokens: seq<string>, args: map<string, string>, keys: seq<string>, skipped: set<string>)
    returns (answer: Result<seq<string>, ArgsError>)
    requires forall k <- keys :: k in args
    ensures answer == match FirstThat(keys, Invalid(skipped))
                      case Some(k) => Failure(InvalidKey(k))
                      case None => Success(tokens + AllTokens(ArgFlags(args, keys, skipped)))
  {
    var result := tokens;
    for i := 0 to |keys|
      invariant FirstThat(keys, Invalid(skipped)) == FirstThat(keys[i..], Invalid(skipped))
      invariant tokens + AllTokens(ArgFlags(args, keys, skipped)) == result + AllTokens(ArgFlags(args, keys[i..], skipped))
    {
      var key := keys[i];
      assert keys[i..][0] == key && keys[i..][1..] == keys[i + 1..];
      FirstArgFlag(args, keys[i..], skipped);
      if key in skipped {
        continue;
      }
      if !IsValidArgKey(key) {
        return Failure(InvalidKey(key));
      }
      var added := PrintArg(args, key);
      result := result + added;
    }
    assert keys[|keys|..] == [] && result + [] == result;
    return Success(result);
  }

  /** The loops that collect the keys set explicitly. */
  method CollectExplicit(e: Engine) returns (explicit: set<string>)
    ensures explicit == ExplicitKeys(e)
  {
    explicit := e.args.Keys;
    for i := 0 to |e.extraArgs|
      invariant explicit + TokenKeys(e.extraArgs[i..]) == ExplicitKeys(e)
    {
      var key := ExtraArgKey(e.extraArgs[i]);
      assert TokenKeys(e.extraArgs[i..]) == KeyOfToken(e.extraArgs[i]) + TokenKeys(e.extraArgs[i + 1..]) by {
        assert e.extraArgs[i..][1..] == e.extraArgs[i + 1..];
      }
      if key.Some? {
        explicit := explicit + {key.value};
      }
    }
  }

  /** One guarded append. */
  method Emit(tokens: seq<string>, emit: bool, flag: Flag, ghost emitted: seq<Flag>) returns (r: seq<string>)
    requires tokens == AllTokens(emitted)
    ensures r == AllTokens(emitted + Single(When(emit, flag)))
  {
    r := tokens;
    if emit {
      r := r + ["--" + flag.key];
      if flag.value.Some? {
        r := r + [flag.value.value];
      }
      TokensConcat(emitted, [flag]);
      assert [flag][1..] == [];
      assert AllTokens([flag]) == Tokens(flag);
    } else {
      assert emitted + [] == emitted;
    }
  }

  method DeriveServerFlags(e: Engine, ghost w: Worker, explicit: set<string>) returns (tokens: seq<string>)
    ensures tokens == AllTokens(DerivedUpTo(e, w, explicit, 5))
  {
    tokens := Emit([], true, Flag("host", Some("0.0.0.0")), DerivedUpTo(e, w, explicit, 0));
    tokens := Emit(tokens, true, Flag("port", Some("8000")), DerivedUpTo(e, w, explicit, 1));
    tokens := Emit(tokens, "model" !in explicit, Flag("model", Some(e.modelId)), DerivedUpTo(e, w, explicit, 2));
    tokens := Emit(tokens, e.servedName != "" && "served-model-name" !in explicit, Flag("served-model-name", Some(e.servedName)), DerivedUpTo(e, w, explicit, 3));
    var length := if e.contextLength.Some? then e.contextLength.value else 0;
    tokens := Emit(tokens, e.contextLength.Some? && "max-model-len" !in explicit, Flag("max-model-len", Some(Decimal(length))), DerivedUpTo(e, w, explicit, 4));
  }

  method DeriveTrustFlags(server: seq<string>, e: Engine, ghost w: Worker, explicit: set<string>) returns (tokens: seq<string>)
    requires server == AllTokens(DerivedUpTo(e, w, explicit, 5))
    ensures tokens == AllTokens(DerivedUpTo(e, w, explicit, 7))
  {
    tokens := Emit(server, e.trustRemoteCode && "trust-remote-code" !in explicit, Flag("trust-remote-code", None), DerivedUpTo(e, w, explicit, 5));
    tokens := Emit(tokens, e.enforceEager && "enforce-eager" !in explicit, Flag("enforce-eager", None), DerivedUpTo(e, w, explicit, 6));
  }

  method DeriveCachingFlag(trusted: seq<string>, e: Engine, ghost w: Worker, explicit: set<string>) returns (tokens: seq<string>)
    requires trusted == AllTokens(DerivedUpTo(e, w, explicit, 7))
    ensures tokens == AllTokens(DerivedUpTo(e, w, explicit, 8))
  {
    var overridden := "enable-prefix-caching" in explicit || "no-enable-prefix-caching" in explicit;
    var enabled := e.enablePrefixCaching.Some? && e.enablePrefixCaching.value;
    var caching := Flag(if enabled then "enable-prefix-caching" else "no-enable-prefix-caching", None);
    tokens := Emit(trusted, e.enablePrefixCaching.Some? && !overridden, caching, DerivedUpTo(e, w, explicit, 7));
  }

  method DeriveParallelFlags(cached: seq<string>, e: Engine, w: Worker, explicit: set<string>) returns (tokens: seq<string>)
    requires cached == AllTokens(DerivedUpTo(e, w, explicit, 8))
    ensures tokens == AllTokens(DerivedUpTo(e, w, explicit, 10))
  {
    var count := w.gpus;
    if count == 0 && e.gpus.Some? {
      count := e.gpus.value;
    }
    tokens := Emit(cached, count > 1 && "tensor-parallel-size" !in explicit, Flag("tensor-parallel-size", Some(Decimal(count))), DerivedUpTo(e, w, explicit, 8));
    tokens := Emit(tokens, w.kvTransferConfig != "", Flag("kv-transfer-config", Some(w.kvTransferConfig)), DerivedUpTo(e, w, explicit, 9));
  }

  method BuildVllmArgs(e: Engine, w: Worker, order: seq<string>) returns (answer: Result<seq<string>, ArgsError>)
    requires IsOrder(order, e.args.Keys)
    ensures answer == Answer(e, w, order)
  {
    var reserved := ValidateReserved(e, order);
    if reserved.Some? {
      return Failure(reserved.value);
    }
    var twice := FindToken(e.extraArgs, Colliding(e));
    if twice.Some? {
      assert LaterError(e) == Some(SetTwice(twice.value));
      return Failure(SetTwice(twice.value));
    }
    var explicit := CollectExplicit(e);
    var tokens := DeriveServerFlags(e, w, explicit);
    tokens := DeriveTrustFlags(tokens, e, w, explicit);
    tokens := DeriveCachingFlag(tokens, e, w, explicit);
    tokens := DeriveParallelFlags(tokens, e, w, explicit);
    var keys := CollectSorted(e.args.Keys);
    SortedKeysAreKeys(e.args.Keys);
    answer := AppendArgs(tokens, e.args, keys, {});
    if answer.Success? {
      answer := Success(answer.value + e.extraArgs);
    }
  }

  // ----- What the answer promises -----

  lemma OrderHasTheKeys(e: Engine, order: seq<string>)
    requires IsOrder(order, e.args.Keys)
    ensures forall k :: k in order <==> k in e.args
  {
    forall k
      ensures k in order <==> k in e.args
    {
      assert k in order <==> k in multiset(order);
    }
  }

  lemma ErrorsAre(e: Engine, order: seq<string>)
    requires IsOrder(order, e.args.Keys)
    ensures Acceptable(e) <==> ReservedError(e, order).None? && LaterError(e).None?
  {
    OrderHasTheKeys(e, order);
    SortedKeysAreKeys(e.args.Keys);
    NoneIsBad(order, IsReserved);
    NoneIsBad(e.extraArgs, ReservedToken);
    NoneIsBad(e.extraArgs, Colliding(e));
    NoneIsBad(SortedKeys(e.args.Keys), Invalid({}));
    SetTwiceExactly(e);
  }

  /** Some token sets a key of the map exactly when the keys of map and tokens overlap. */
  lemma SetTwiceExactly(e: Engine)
    ensures (forall arg <- e.extraArgs :: !Colliding(e)(arg)) <==> e.args.Keys !! TokenKeys(e.extraArgs)
  {
    TokenKeysAreKeys(e.extraArgs);
    if k :| k in e.args && k in TokenKeys(e.extraArgs) {
      var arg :| arg in e.extraArgs && ExtraArgKey(arg) == Some(k);
      assert Colliding(e)(arg);
    }
  }

  /** Success, and the command line then, depend on the spec alone. */
  lemma SuccessIsSettled(e: Engine, w: Worker, order: seq<string>)
    requires IsOrder(order, e.args.Keys)
    ensures Answer(e, w, order).Success? <==> Acceptable(e)
    ensures Answer(e, w, order).Success? ==> Answer(e, w, order).value == RenderedArgs(e, w)
  {
    ErrorsAre(e, order);
  }

  ghost predicate AtMostOneReserved(e: Engine) {
    forall j, k | j in e.args && k in e.args && IsReserved(j) && IsReserved(k) :: j == k
  }

  /** Any reserved key of the map may be the one that the error names. */
  lemma AnyReservedKeyMayBeNamed(e: Engine, w: Worker, key: string) returns (order: seq<string>)
    requires key in e.args && IsReserved(key)
    ensures IsOrder(order, e.args.Keys) && Answer(e, w, order) == Failure(ReservedArg(key))
  {
    order := OrderFrom(e.args.Keys, key);
  }

  lemma OrderFrom(keys: set<string>, key: string) returns (order: seq<string>)
    requires key in keys
    ensures IsOrder(order, keys) && order != [] && order[0] == key
  {
    order := [key] + Listing(keys - {key});
    assert keys == (keys - {key}) + {key};
  }

  lemma {:induction false} FirstIsBad(tokens: seq<string>, bad: string -> bool)
    ensures var first := FirstThat(tokens, bad); first.Some? ==> first.value in tokens && bad(first.value)
    decreases |tokens|
  {
    if tokens != [] {
      FirstIsBad(tokens[1..], bad);
    }
  }

  /** The whole answer is the same for every order of the map exactly when at most one of its keys is reserved. */
  lemma AnswersAgreeExactly(e: Engine, w: Worker)
    ensures (forall one, other | IsOrder(one, e.args.Keys) && IsOrder(other, e.args.Keys) :: Answer(e, w, one) == Answer(e, w, other))
       <==> AtMostOneReserved(e)
  {
    if AtMostOneReserved(e) {
      forall one, other | IsOrder(one, e.args.Keys) && IsOrder(other, e.args.Keys)
        ensures Answer(e, w, one) == Answer(e, w, other)
      {
        SameReservedKey(e, one, other);
      }
    } else {
      var j, k :| j in e.args && k in e.args && IsReserved(j) && IsReserved(k) && j != k;
      var one := AnyReservedKeyMayBeNamed(e, w, j);
      var other := AnyReservedKeyMayBeNamed(e, w, k);
      assert Answer(e, w, one) != Answer(e, w, other);
    }
  }

  lemma SameReservedKey(e: Engine, one: seq<string>, other: seq<string>)
    requires AtMostOneReserved(e) && IsOrder(one, e.args.Keys) && IsOrder(other, e.args.Keys)
    ensures FirstThat(one, IsReserved) == FirstThat(other, IsReserved)
  {
    OrderHasTheKeys(e, one);
    OrderHasTheKeys(e, other);
    NoneIsBad(one, IsReserved);
    NoneIsBad(other, IsReserved);
    FirstIsBad(one, IsReserved);
    FirstIsBad(other, IsReserved);
  }
}
