/** How often each flag reaches the vLLM command line. */
module VllmFlagCounts {
  import opened JsonValues
  import opened Texts
  import opened Sorting
  import opened VllmArgs

  /** The flag names that set one thing; the two prefix-caching flags count as one. */
  function Names(s: Setting): set<string> {
    match s
    case Host => {"host"}
    case Port => {"port"}
    case Model => {"model"}
    case ServedName => {"served-model-name"}
    case MaxLength => {"max-model-len"}
    case TrustRemote => {"trust-remote-code"}
    case Eager => {"enforce-eager"}
    case PrefixCaching => {"enable-prefix-caching", "no-enable-prefix-caching"}
    case Parallel => {"tensor-parallel-size"}
    case KvTransfer => {"kv-transfer-config"}
  }

  /** Whether the spec, leaving the explicit flags aside, asks for the setting. */
  predicate Requested(e: Engine, w: Worker, s: Setting) {
    match s
    case Host => true
    case Port => true
    case Model => true
    case ServedName => e.servedName != ""
    case MaxLength => e.contextLength.Some?
    case TrustRemote => e.trustRemoteCode
    case Eager => e.enforceEager
    case PrefixCaching => e.enablePrefixCaching.Some?
    case Parallel => TensorParallel(e, w) > 1
    case KvTransfer => w.kvTransferConfig != ""
  }

  function Copies(flags: seq<Flag>, names: set<string>): nat {
    if flags == [] then 0
    else (if flags[0].key in names then 1 else 0) + Copies(flags[1..], names)
  }

  lemma {:induction false} CopiesConcat(a: seq<Flag>, b: seq<Flag>, names: set<string>)
    ensures Copies(a + b, names) == Copies(a, names) + Copies(b, names)
    decreases |a|
  {
    if a == [] {
      assert a + b == b;
    } else {
      CopiesConcat(a[1..], b, names);
      assert (a + b)[1..] == a[1..] + b;
    }
  }

  function Rank(s: Setting): nat {
    match s
    case Host => 0
    case Port => 1
    case Model => 2
    case ServedName => 3
    case MaxLength => 4
    case TrustRemote => 5
    case Eager => 6
    case PrefixCaching => 7
    case Parallel => 8
    case KvTransfer => 9
  }

  /** One name identifies one setting. */
  function SettingNamed(name: string): Option<Setting> {
    if |name| < 1 then None
    else if |name| == 4 then Some(if name[0] == 'h' then Host else Port)
    else if |name| == 5 then Some(Model)
    else if |name| == 13 then Some(if name[0] == 'm' then MaxLength else Eager)
    else if |name| == 17 then Some(if name[0] == 's' then ServedName else TrustRemote)
    else if |name| == 18 then Some(KvTransfer)
    else if |name| == 20 then Some(Parallel)
    else Some(PrefixCaching)
  }

  lemma NamesAreNotShared(s: Setting, name: string)
    requires name in Names(s)
    ensures SettingNamed(name) == Some(s)
  {
    match s
    case Host =>
    case Port =>
    case Model =>
    case ServedName =>
    case MaxLength =>
    case TrustRemote =>
    case Eager =>
    case PrefixCaching =>
    case Parallel =>
    case KvTransfer =>
  }

  lemma DerivedFlagNamesItsSetting(e: Engine, w: Worker, explicit: set<string>, s: Setting)
    ensures Derived(e, w, explicit, s).Some? ==> Derived(e, w, explicit, s).value.key in Names(s)
    ensures Derived(e, w, explicit, s).Some? <==> Requested(e, w, s) && (s in {Host, Port, KvTransfer} || Names(s) !! explicit)
  {
  }

  lemma CopiesInOneStep(e: Engine, w: Worker, explicit: set<string>, s: Setting, t: Setting)
    ensures Copies(Single(Derived(e, w, explicit, t)), Names(s))
         == if s == t && Derived(e, w, explicit, s).Some? then 1 else 0
  {
    DerivedFlagNamesItsSetting(e, w, explicit, t);
    var one := Derived(e, w, explicit, t);
    if one.Some? {
      NamesAreNotShared(t, one.value.key);
      if one.value.key in Names(s) {
        NamesAreNotShared(s, one.value.key);
      }
    }
  }

  lemma {:induction false} CopiesUpTo(e: Engine, w: Worker, explicit: set<string>, s: Setting, n: nat)
    requires n <= 10
    ensures Copies(DerivedUpTo(e, w, explicit, n), Names(s))
         == if Rank(s) < n && Derived(e, w, explicit, s).Some? then 1 else 0
  {
    if n > 0 {
      CopiesUpTo(e, w, explicit, s, n - 1);
      CopiesInOneStep(e, w, explicit, s, Order(n - 1));
      CopiesConcat(DerivedUpTo(e, w, explicit, n - 1), Single(Derived(e, w, explicit, Order(n - 1))), Names(s));
      RankOfOrder(n - 1);
      OrderOfRank(s);
    }
  }

  lemma RankOfOrder(n: nat)
    requires n < 10
    ensures Rank(Order(n)) == n
  {
  }

  lemma OrderOfRank(s: Setting)
    ensures Rank(s) < 10 && Order(Rank(s)) == s
  {
  }

  /** host and port can never be set explicitly. */
  lemma HostAndPortAreNotExplicit(e: Engine)
    requires Acceptable(e)
    ensures "host" !in ExplicitKeys(e) && "port" !in ExplicitKeys(e)
  {
    assert IsReserved("host") && IsReserved("port");
    TokenKeysAreKeys(e.extraArgs);
  }

  /** A derived flag appears exactly when the spec asks for it and the user has not set it, and then once. Only a
      disaggregated worker's KV-transfer flag does not yield. */
  lemma EachDerivedFlagOnce(e: Engine, w: Worker, s: Setting)
    requires Acceptable(e)
    ensures Copies(DerivedFlags(e, w), Names(s))
         == if Requested(e, w, s) && (s == KvTransfer || Names(s) !! ExplicitKeys(e)) then 1 else 0
  {
    CopiesUpTo(e, w, ExplicitKeys(e), s, 10);
    DerivedFlagNamesItsSetting(e, w, ExplicitKeys(e), s);
    HostAndPortAreNotExplicit(e);
  }

  // ----- On the command line itself -----

  /** How many tokens of a command line set the flag. */
  function Naming(tokens: seq<string>, key: string): nat {
    if tokens == [] then 0
    else (if ExtraArgKey(tokens[0]) == Some(key) then 1 else 0) + Naming(tokens[1..], key)
  }

  lemma {:induction false} NamingConcat(a: seq<string>, b: seq<string>, key: string)
    ensures Naming(a + b, key) == Naming(a, key) + Naming(b, key)
    decreases |a|
  {
    if a == [] {
      assert a + b == b;
    } else {
      NamingConcat(a[1..], b, key);
      assert (a + b)[1..] == a[1..] + b;
    }
  }

  /** The tokens that are values rather than flags. */
  function Values(flags: seq<Flag>): seq<string> {
    if flags == [] then []
    else (if flags[0].value.Some? then [flags[0].value.value] else []) + Values(flags[1..])
  }

  lemma TrimValid(key: string)
    requires IsValidArgKey(key)
    ensures Trim(key) == key && UpToEquals(key) == key
  {
    assert key[|key| - 1] in key && key[0] in key;
    assert '=' !in key;
    NothingToTrim(key);
  }

  /** A flag token reads as the flag it was printed from. */
  lemma FlagTokenReadsBack(key: string)
    requires IsValidArgKey(key)
    ensures ExtraArgKey("--" + key) == Some(key)
  {
    assert ("--" + key)[2..] == key;
    TrimValid(key);
  }

  lemma {:induction false} NamingFlags(flags: seq<Flag>, key: string)
    requires forall f <- flags :: IsValidArgKey(f.key)
    ensures Naming(AllTokens(flags), key) == Copies(flags, {key}) + Naming(Values(flags), key)
    decreases |flags|
  {
    if flags != [] {
      var f := flags[0];
      NamingFlags(flags[1..], key);
      FlagTokenReadsBack(f.key);
      NamingConcat(Tokens(f), AllTokens(flags[1..]), key);
      if f.value.Some? {
        assert Tokens(f)[1..] == [f.value.value] && Tokens(f)[1..][1..] == [];
        assert Values(flags)[1..] == Values(flags[1..]);
      } else {
        assert Tokens(f)[1..] == [];
        assert Values(flags) == Values(flags[1..]);
      }
    }
  }

  lemma {:induction false} MapFlagsNameKeys(args: map<string, string>, keys: seq<string>, skipped: set<string>)
    requires forall k <- keys :: k in args
    ensures forall f <- ArgFlags(args, keys, skipped) :: f.key in keys && f.key !in skipped
    decreases |keys|
  {
    if keys != [] {
      MapFlagsNameKeys(args, keys[1..], skipped);
    }
  }

  lemma CountFirst(keys: seq<string>, key: string)
    requires keys != []
    ensures multiset(keys)[key] == (if keys[0] == key then 1 else 0) + multiset(keys[1..])[key]
  {
    assert keys == [keys[0]] + keys[1..];
  }

  lemma {:induction false} CopiesOfKey(args: map<string, string>, keys: seq<string>, skipped: set<string>, key: string)
    requires forall k <- keys :: k in args
    ensures Copies(ArgFlags(args, keys, skipped), {key}) == if key in skipped then 0 else multiset(keys)[key]
    decreases |keys|
  {
    if keys != [] {
      CopiesOfKey(args, keys[1..], skipped, key);
      CountFirst(keys, key);
      var first := if keys[0] in skipped then [] else [FlagOfArg(args, keys[0])];
      CopiesConcat(first, ArgFlags(args, keys[1..], skipped), {key});
      assert Copies(first, {key}) == if keys[0] !in skipped && keys[0] == key then 1 else 0;
    }
  }

  /** Every key of the map that is not skipped becomes a flag exactly once. */
  lemma EachMapKeyOnce(args: map<string, string>, skipped: set<string>, key: string)
    ensures Copies(MapFlags(args, skipped), {key}) == if key in args && key !in skipped then 1 else 0
  {
    SortedKeysAreKeys(args.Keys);
    CopiesOfKey(args, SortedKeys(args.Keys), skipped, key);
    assert multiset(SortedKeys(args.Keys)) == multiset(args.Keys);
  }

  lemma {:induction false} NoneNaming(tokens: seq<string>, key: string)
    requires forall t <- tokens :: ExtraArgKey(t) != Some(key)
    ensures Naming(tokens, key) == 0
    decreases |tokens|
  {
    if tokens != [] {
      NoneNaming(tokens[1..], key);
    }
  }

  lemma NamesAreValid(s: Setting, name: string)
    requires name in Names(s)
    ensures IsValidArgKey(name)
  {
    if Rank(s) < 5 {
      ServerNamesAreValid(s, name);
    }
  }

  lemma ServerNamesAreValid(s: Setting, name: string)
    requires name in Names(s) && Rank(s) < 5
    ensures IsValidArgKey(name)
  {
  }

  lemma {:induction false} DerivedKeysAreValid(e: Engine, w: Worker, explicit: set<string>, n: nat)
    requires n <= 10
    ensures forall f <- DerivedUpTo(e, w, explicit, n) :: IsValidArgKey(f.key)
  {
    if n > 0 {
      DerivedKeysAreValid(e, w, explicit, n - 1);
      var last := Derived(e, w, explicit, Order(n - 1));
      if last.Some? {
        DerivedFlagNamesItsSetting(e, w, explicit, Order(n - 1));
        NamesAreValid(Order(n - 1), last.value.key);
      }
    }
  }

  /** How often a command line of derived flags, map flags and raw tokens sets a flag: the derived copies, the map's,
      the user's tokens, and whatever values happen to read like that flag. */
  lemma NamingOnTheLine(derived: seq<Flag>, args: map<string, string>, skipped: set<string>, tokens: seq<string>, key: string)
    requires forall f <- derived :: IsValidArgKey(f.key)
    requires forall k <- args.Keys :: k in skipped || IsValidArgKey(k)
    ensures Naming(AllTokens(derived) + AllTokens(MapFlags(args, skipped)) + tokens, key)
         == Copies(derived, {key}) + (if key in args && key !in skipped then 1 else 0) + Naming(tokens, key)
            + Naming(Values(derived), key) + Naming(Values(MapFlags(args, skipped)), key)
  {
    var mapped := MapFlags(args, skipped);
    NamingConcat(AllTokens(derived) + AllTokens(mapped), tokens, key);
    NamingConcat(AllTokens(derived), AllTokens(mapped), key);
    NamingFlags(derived, key);
    SortedKeysAreKeys(args.Keys);
    MapFlagsNameKeys(args, SortedKeys(args.Keys), skipped);
    NamingFlags(mapped, key);
    EachMapKeyOnce(args, skipped, key);
  }

  /** On the rendered line host (and port) is set once more often than values happen to read like that flag. */
  lemma HostAndPortOnce(e: Engine, w: Worker, s: Setting, key: string)
    requires Acceptable(e) && s in {Host, Port} && Names(s) == {key}
    ensures Naming(RenderedArgs(e, w), key)
         == 1 + Naming(Values(DerivedFlags(e, w)), key) + Naming(Values(MapFlags(e.args, {})), key)
  {
    HostAndPortAreNotExplicit(e);
    assert key in Names(s);
    EachDerivedFlagOnce(e, w, s);
    DerivedKeysAreValid(e, w, ExplicitKeys(e), 10);
    NamingOnTheLine(DerivedFlags(e, w), e.args, {}, e.extraArgs, key);
    TokenKeysAreKeys(e.extraArgs);
    NoneNaming(e.extraArgs, key);
  }
}
