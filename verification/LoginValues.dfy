/** Which of a vault item's values a login reads (cli/src/bwu_login.rs, `prepare`). */
module LoginValues {
  import opened Common

  /** A value handed to the child through its environment. */
  datatype Env = Passkeys | Username | Password | OneTimeCode | Custom(index: nat, field: string)

  /** What the masked probe says the item has, and its own typing steps if any. */
  datatype Item = Item(username: bool, password: bool, code: bool, passkeys: nat, autotype: Option<seq<string>>)

  /** What the caller asked for. */
  datatype Request = Request(passkeyFirst: bool, noSubmit: bool, totpOnly: bool)

  datatype Values = Values(envs: seq<Env>, custom: seq<string>, steps: Option<seq<string>>, deferOtp: bool)

  datatype Failure = NoSeed | NoPasskey | NothingToLogInWith

  const CUSTOM := "custom:"
  const TOTP_STEPS := ["totp", "enter"]

  /** `field` is what a typing step says to type from the item's own fields. */
  function CustomFields(steps: seq<string>): seq<string> {
    if steps == [] then []
    else CustomFields(steps[..|steps| - 1])
         + (if CUSTOM <= steps[|steps| - 1] then [steps[|steps| - 1][|CUSTOM|..]] else [])
  }

  /** The steps a login follows: those of a code-only login, else the item's own. */
  function StepsFor(item: Item, q: Request): Option<seq<string>> {
    if q.totpOnly then Some(TOTP_STEPS) else item.autotype
  }

  /** A login types this value: the item's own steps say so, or there are none. */
  predicate Types(item: Item, q: Request, step: string) {
    !q.passkeyFirst && (StepsFor(item, q).None? || step in StepsFor(item, q).value)
  }

  /** Values other than the code and the item's own fields that will be read. */
  predicate ReadsOther(item: Item, q: Request) {
    || (item.passkeys > 0 && !q.noSubmit && !q.totpOnly)
    || (item.username && Types(item, q, "username"))
    || (item.password && Types(item, q, "password"))
  }

  /** The code is left to a second phase. */
  predicate Defers(item: Item, q: Request) {
    item.code && Types(item, q, "totp") && !q.noSubmit && StepsFor(item, q).None? && ReadsOther(item, q)
  }

  /** The custom fields a login types. */
  function CustomOf(item: Item, q: Request): seq<string> {
    if q.passkeyFirst || StepsFor(item, q).None? then [] else CustomFields(StepsFor(item, q).value)
  }

  predicate ReadsAnything(item: Item, q: Request) {
    ReadsOther(item, q) || (item.code && Types(item, q, "totp") && !q.noSubmit) || CustomOf(item, q) != []
  }

  /** The loop over the item's typing steps. */
  method CollectCustom(steps: seq<string>) returns (fields: seq<string>)
    ensures fields == CustomFields(steps)
  {
    fields := [];
    for i := 0 to |steps|
      invariant fields == CustomFields(steps[..i])
    {
      assert steps[..i + 1][..i] == steps[..i];
      if CUSTOM <= steps[i] {
        fields := fields + [steps[i][|CUSTOM|..]];
      }
    }
    assert steps[..|steps|] == steps;
  }

  ghost predicate NoCustom(envs: seq<Env>) {
    forall e: Env :: e in envs ==> !e.Custom?
  }

  /** Exactly which values are read, each once. */
  ghost predicate Reads(item: Item, q: Request, v: Values) {
    && v.envs != [] && Distinct(v.envs)
    && v.steps == StepsFor(item, q) && v.deferOtp == Defers(item, q)
    && (Passkeys in v.envs <==> item.passkeys > 0 && !q.noSubmit && !q.totpOnly)
    && (Username in v.envs <==> item.username && Types(item, q, "username"))
    && (Password in v.envs <==> item.password && Types(item, q, "password"))
    && (OneTimeCode in v.envs <==> item.code && Types(item, q, "totp") && !q.noSubmit && !Defers(item, q))
    && v.custom == CustomOf(item, q)
    && (forall i: nat, f: string :: Custom(i, f) in v.envs <==> i < |v.custom| && v.custom[i] == f)
  }

  /** The promises made to the user about what leaves the vault. */
  lemma ReadsNoMore(item: Item, q: Request, v: Values)
    requires Reads(item, q, v)
    ensures q.passkeyFirst ==> v.envs == [Passkeys]
    ensures q.totpOnly ==> v.envs == [OneTimeCode] && !v.deferOtp
    ensures q.noSubmit ==> Passkeys !in v.envs && OneTimeCode !in v.envs && !v.deferOtp
    ensures v.deferOtp ==> OneTimeCode !in v.envs && v.custom == [] && v.steps.None?
  {
    if q.passkeyFirst {
      OnlyOne(v.envs, Passkeys);
    }
    if q.totpOnly {
      assert CUSTOM[0] == 'c' && TOTP_STEPS[0][0] == 't' && TOTP_STEPS[1][0] == 'e';
      assert TOTP_STEPS[..|TOTP_STEPS| - 1] == ["totp"] && ["totp"][..0] == [];
      assert CustomFields(["totp"]) == [];
      OnlyOne(v.envs, OneTimeCode);
    }
  }

  /** The login follows no steps, or its steps have this one. */
  ghost predicate Wants(item: Item, q: Request, step: string) {
    && !q.passkeyFirst
    && if q.totpOnly then step in ["totp", "enter"] else item.autotype.None? || step in item.autotype.value
  }

  /** What a step names to be typed from the item's own fields, from the first step on. */
  ghost function FieldsNamed(steps: seq<string>): seq<string> {
    if steps == [] then []
    else (if "custom:" <= steps[0] then [steps[0][7..]] else []) + FieldsNamed(steps[1..])
  }

  lemma {:induction false} FieldsAppend(steps: seq<string>, step: string)
    ensures FieldsNamed(steps + [step]) == FieldsNamed(steps) + (if "custom:" <= step then [step[7..]] else [])
  {
    if steps == [] {
      assert [step][1..] == [] && [] + [step] == [step];
    } else {
      FieldsAppend(steps[1..], step);
      assert (steps + [step])[1..] == steps[1..] + [step] && (steps + [step])[0] == steps[0];
      Regroup(if "custom:" <= steps[0] then [steps[0][7..]] else [], FieldsNamed(steps[1..]),
              if "custom:" <= step then [step[7..]] else []);
    }
  }

  lemma {:induction false} FieldsAreNamed(steps: seq<string>)
    ensures CustomFields(steps) == FieldsNamed(steps)
  {
    if steps != [] {
      FieldsAreNamed(steps[..|steps| - 1]);
      FieldsAppend(steps[..|steps| - 1], steps[|steps| - 1]);
      assert steps == steps[..|steps| - 1] + [steps[|steps| - 1]];
    }
  }

  /** What is read, in terms of what the item has and what the caller asked for. */
  lemma ReadsExactly(item: Item, q: Request, v: Values)
    requires Reads(item, q, v)
    ensures Passkeys in v.envs <==> item.passkeys > 0 && !q.noSubmit && !q.totpOnly
    ensures Username in v.envs <==> item.username && Wants(item, q, "username")
    ensures Password in v.envs <==> item.password && Wants(item, q, "password")
    ensures v.deferOtp <==>
              && item.code && !q.passkeyFirst && !q.noSubmit && !q.totpOnly && item.autotype.None?
              && (Passkeys in v.envs || Username in v.envs || Password in v.envs)
    ensures OneTimeCode in v.envs <==> item.code && Wants(item, q, "totp") && !q.noSubmit && !v.deferOtp
    ensures v.steps == if q.totpOnly then Some(["totp", "enter"]) else item.autotype
    ensures v.custom == if q.passkeyFirst || v.steps.None? then [] else FieldsNamed(v.steps.value)
  {
    if v.steps.Some? {
      FieldsAreNamed(v.steps.value);
    }
    hide CustomFields, FieldsNamed;
  }

  lemma OnlyOne(envs: seq<Env>, e: Env)
    requires envs != [] && Distinct(envs) && forall x: Env :: x in envs ==> x == e
    ensures envs == [e]
  {
    forall i | 0 <= i < |envs|
      ensures envs[i] == e
    {
      assert envs[i] in envs;
    }
    assert forall i, j :: 0 <= i < |envs| && 0 <= j < |envs| && envs[i] == envs[j] ==> i == j;
    assert envs[0] == envs[|envs| - 1];
  }

  /** The values other than the item's own fields, in the order in which they are asked for. */
  method CollectStandard(item: Item, q: Request) returns (envs: seq<Env>, defer_: bool)
    ensures NoCustom(envs) && Distinct(envs)
    ensures defer_ == Defers(item, q)
    ensures Passkeys in envs <==> item.passkeys > 0 && !q.noSubmit && !q.totpOnly
    ensures Username in envs <==> item.username && Types(item, q, "username")
    ensures Password in envs <==> item.password && Types(item, q, "password")
    ensures OneTimeCode in envs <==> item.code && Types(item, q, "totp") && !q.noSubmit && !Defers(item, q)
  {
    hide Types;
    envs := [];
    if item.passkeys > 0 && !q.noSubmit && !q.totpOnly {
      envs := envs + [Passkeys];
    }
    if item.username && Types(item, q, "username") {
      envs := envs + [Username];
    }
    if item.password && Types(item, q, "password") {
      envs := envs + [Password];
    }
    defer_ := item.code && Types(item, q, "totp") && !q.noSubmit && StepsFor(item, q).None? && envs != [];
    if item.code && Types(item, q, "totp") && !q.noSubmit && !defer_ {
      envs := envs + [OneTimeCode];
    }
  }

  /** The loop that names the item's own fields. */
  method AddCustom(before: seq<Env>, custom: seq<string>) returns (envs: seq<Env>)
    requires Distinct(before) && NoCustom(before)
    ensures Distinct(envs) && |envs| == |before| + |custom|
    ensures forall e: Env :: !e.Custom? ==> (e in envs <==> e in before)
    ensures forall i: nat, f: string :: Custom(i, f) in envs <==> i < |custom| && custom[i] == f
  {
    envs := before;
    for i := 0 to |custom|
      invariant Distinct(envs) && |envs| == |before| + i
      invariant forall e: Env :: !e.Custom? ==> (e in envs <==> e in before)
      invariant forall j: nat, f: string :: Custom(j, f) in envs <==> j < i && custom[j] == f
    {
      DistinctAppend(envs, Custom(i, custom[i]));
      envs := envs + [Custom(i, custom[i])];
    }
  }

  /** Fails, reading nothing, exactly when the login could not use any value. */
  method Prepare(item: Item, q: Request) returns (r: Result<Values, Failure>)
    ensures r == Err(NoSeed) <==> q.totpOnly && !item.code
    ensures r == Err(NoPasskey) <==> !(q.totpOnly && !item.code) && q.passkeyFirst && item.passkeys == 0
    ensures r.Ok? ==> Reads(item, q, r.value)
    ensures r == Err(NothingToLogInWith) ==> !ReadsAnything(item, q)
    ensures r.Ok? ==> ReadsAnything(item, q)
  {
    var steps := item.autotype;
    if q.totpOnly {
      if !item.code {
        return Err(NoSeed);
      }
      steps := Some(["totp", "enter"]);
    }
    if q.passkeyFirst && item.passkeys == 0 {
      return Err(NoPasskey);
    }
    var envs, defer_ := CollectStandard(item, q);
    assert envs != [] ==> envs[0] in envs;
    var custom: seq<string> := [];
    if steps.Some? && !q.passkeyFirst {
      custom := CollectCustom(steps.value);
    }
    envs := AddCustom(envs, custom);
    if envs == [] {
      return Err(NothingToLogInWith);
    }
    r := Ok(Values(envs, custom, steps, defer_));
  }
}
