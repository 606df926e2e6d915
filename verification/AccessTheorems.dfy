/** Laws of the access configuration: what merging means, and what it does not depend on. */
module AccessTheorems {
  import opened Ordering
  import opened Wrappers
  import opened DeepCopy
  import opened AccessSpec

  // ----- what merging the environment means -----

  /** `v` is the value of the last variable of this name. */
  ghost predicate LastValue(env: seq<EnvVar>, name: string, v: string) {
    exists i :: 0 <= i < |env| && env[i] == EnvVar(name, v) && forall j :: i < j < |env| ==> env[j].name != name
  }

  /** `v` is the value of the first variable of this name. */
  ghost predicate FirstValue(env: seq<EnvVar>, name: string, v: string) {
    exists i :: 0 <= i < |env| && env[i] == EnvVar(name, v) && forall j :: 0 <= j < i ==> env[j].name != name
  }

  ghost predicate Names(env: seq<EnvVar>, name: string) {
    exists i :: 0 <= i < |env| && env[i].name == name
  }

  lemma LastValueAppend(front: seq<EnvVar>, x: EnvVar, name: string, v: string)
    ensures Names(front + [x], name) <==> Names(front, name) || x.name == name
    ensures LastValue(front + [x], name, v) <==> if x.name == name then v == x.value else LastValue(front, name, v)
  {
    var env, n := front + [x], |front|;
    assert forall i :: 0 <= i < n ==> front[i] == env[i];
    assert env[n] == x;
    if Names(front, name) {
      var i :| 0 <= i < n && front[i].name == name;
      assert env[i].name == name;
    }
    if x.name != name && LastValue(front, name, v) {
      var i :| 0 <= i < n && front[i] == EnvVar(name, v) && forall j :: i < j < n ==> front[j].name != name;
      assert env[i] == EnvVar(name, v);
    }
  }

  lemma {:induction false} OverlayMeaning(m: map<string, string>, env: seq<EnvVar>, name: string)
    ensures name in Overlay(m, env) <==> name in m || Names(env, name)
    ensures Names(env, name) ==> LastValue(env, name, Overlay(m, env)[name])
    ensures !Names(env, name) && name in m ==> Overlay(m, env)[name] == m[name]
  {
    if env != [] {
      var front, x := env[..|env| - 1], env[|env| - 1];
      OverlayMeaning(m, front, name);
      LastElement(env);
      if Names(env, name) {
        LastValueAppend(front, x, name, Overlay(m, env)[name]);
      } else {
        LastValueAppend(front, x, name, x.value);
      }
    }
  }

  lemma {:induction false} UnderlayMeaning(m: map<string, string>, env: seq<EnvVar>, name: string)
    ensures name in Underlay(m, env) <==> name in m || Names(env, name)
    ensures name in m ==> Underlay(m, env)[name] == m[name]
    ensures name !in m && Names(env, name) ==> FirstValue(env, name, Underlay(m, env)[name])
  {
    if env != [] {
      var n := |env| - 1;
      var front := env[..n];
      UnderlayMeaning(m, front, name);
      assert forall i :: 0 <= i < n ==> front[i] == env[i];
      if name !in m {
        if Names(front, name) {
          var v := Underlay(m, front)[name];
          var i :| 0 <= i < n && front[i] == EnvVar(name, v) && forall j :: 0 <= j < i ==> front[j].name != name;
          assert env[i] == EnvVar(name, v);
        } else if env[n].name == name {
          assert env[n] == EnvVar(name, Underlay(m, env)[name]);
        }
      }
    }
  }

  lemma CanonicalStrict(l: seq<EnvVar>, m: map<string, string>)
    requires CanonicalList(l, m)
    ensures forall i, j :: 0 <= i < j < |l| ==> StrLe(l[i].name, l[j].name) && l[i].name != l[j].name
    ensures forall name :: name in m <==> Names(l, name)
    ensures forall i :: 0 <= i < |l| ==> l[i].name in m && m[l[i].name] == l[i].value
  {
    forall i, j | 0 <= i < j < |l| ensures StrLe(l[i].name, l[j].name) {
      assert ByEnvName(l[i], l[j]);
    }
    forall name ensures name in m <==> Names(l, name) {
      if name in m {
        assert EnvVar(name, m[name]) in l;
      }
    }
  }

  /** The merged list is strictly increasing by name, its names are those of both sources, and
      on a conflict the provider's last value wins under AppendIfNotExists, while under Replace
      the extension wins and, among the provider's own, the first. */
  lemma MergeEnvMeaning(d: Decoder, env: Slice<EnvVar>, raw: seq<byte>, policy: EnvPolicy, merged: seq<EnvVar>)
    requires policy in {EnvAppendIfNotExists, EnvReplace} && d.env(raw).Mapping?
    requires MergeEnv(d, env, raw, policy) == Ok(Items(merged))
    ensures var m, own := d.env(raw).vars, Data(env);
            && (forall i, j :: 0 <= i < j < |merged| ==>
                StrLe(merged[i].name, merged[j].name) && merged[i].name != merged[j].name)
            && (forall name :: Names(merged, name) <==> name in m || Names(own, name))
            && (forall v :: v in merged ==>
                  if policy == EnvReplace
                  then (if v.name in m then v.value == m[v.name] else FirstValue(own, v.name, v.value))
                  else (if Names(own, v.name) then LastValue(own, v.name, v.value)
                        else v.name in m && v.value == m[v.name]))
  {
    var m, own := d.env(raw).vars, Data(env);
    var result := if policy.EnvReplace? then Underlay(m, own) else Overlay(m, own);
    CanonicalStrict(merged, result);
    forall name ensures Names(merged, name) <==> name in m || Names(own, name) {
      OverlayMeaning(m, own, name);
      UnderlayMeaning(m, own, name);
    }
    forall v | v in merged
      ensures if policy == EnvReplace
              then (if v.name in m then v.value == m[v.name] else FirstValue(own, v.name, v.value))
              else (if Names(own, v.name) then LastValue(own, v.name, v.value) else v.name in m && v.value == m[v.name])
    {
      OverlayMeaning(m, own, v.name);
      UnderlayMeaning(m, own, v.name);
    }
  }

  /** In a list without repeated names the first and the last value of a name coincide with the
      value the mapping gives it. */
  lemma CanonicalValue(l: seq<EnvVar>, m: map<string, string>, name: string, v: string)
    requires CanonicalList(l, m) && (LastValue(l, name, v) || FirstValue(l, name, v))
    ensures name in m && m[name] == v
  {
    CanonicalStrict(l, m);
  }

  lemma OverlayAgain(m: map<string, string>, env: seq<EnvVar>)
    ensures Overlay(m, EnvList(Overlay(m, env))) == Overlay(m, env)
  {
    var once := Overlay(m, env);
    var l := EnvList(once);
    var twice := Overlay(m, l);
    CanonicalStrict(l, once);
    forall name ensures (name in twice <==> name in once) && (name in once ==> twice[name] == once[name]) {
      OverlayMeaning(m, env, name);
      OverlayMeaning(m, l, name);
      if name in once {
        CanonicalValue(l, once, name, twice[name]);
      }
    }
  }

  lemma UnderlayAgain(m: map<string, string>, env: seq<EnvVar>)
    ensures Underlay(m, EnvList(Underlay(m, env))) == Underlay(m, env)
  {
    var once := Underlay(m, env);
    var l := EnvList(once);
    var twice := Underlay(m, l);
    CanonicalStrict(l, once);
    forall name ensures (name in twice <==> name in once) && (name in once ==> twice[name] == once[name]) {
      UnderlayMeaning(m, env, name);
      UnderlayMeaning(m, l, name);
      if name in once && name !in m {
        CanonicalValue(l, once, name, twice[name]);
      }
    }
  }

  /** Applying the same extension a second time changes nothing. */
  lemma MergeEnvIdempotent(d: Decoder, env: Slice<EnvVar>, raw: seq<byte>, policy: EnvPolicy)
    requires MergeEnv(d, env, raw, policy).Ok?
    ensures MergeEnv(d, MergeEnv(d, env, raw, policy).value, raw, policy) == MergeEnv(d, env, raw, policy)
  {
    if policy in {EnvAppendIfNotExists, EnvReplace} && d.env(raw).Mapping? {
      OverlayAgain(d.env(raw).vars, Data(env));
      UnderlayAgain(d.env(raw).vars, Data(env));
    }
  }

  // ----- folding -----

  /** The arguments after every additional-args extension, in list order. */
  function ArgsAll(d: Decoder, args: Slice<string>, exts: seq<ExtensionValue>, ap: ArgsPolicy): Result<Slice<string>>
    decreases |exts|
  {
    if exts == [] then Ok(args)
    else if exts[0].name != AdditionalArgsKey then ArgsAll(d, args, exts[1..], ap)
    else
      match MergeArgs(d, args, Data(exts[0].raw), ap)
      case Ok(next) => ArgsAll(d, next, exts[1..], ap)
      case Err(e) => Err(e)
      case Panic => Panic
  }

  /** The environment after every additional-envs extension, in list order. */
  ghost function EnvAll(d: Decoder, env: Slice<EnvVar>, exts: seq<ExtensionValue>, ep: EnvPolicy): Result<Slice<EnvVar>>
    decreases |exts|
  {
    if exts == [] then Ok(env)
    else if exts[0].name != AdditionalEnvsKey then EnvAll(d, env, exts[1..], ep)
    else
      match MergeEnv(d, env, Data(exts[0].raw), ep)
      case Ok(next) => EnvAll(d, next, exts[1..], ep)
      case Err(e) => Err(e)
      case Panic => Panic
  }

  /** Folding the extensions succeeds exactly when the arguments and the environment can each be
      folded alone, and then nothing else has changed. Names may repeat. */
  lemma {:induction false} ApplyAllMeaning(d: Decoder, exec: ExecValue, exts: seq<ExtensionValue>, ap: ArgsPolicy,
          ep: EnvPolicy)
    ensures var args, env := ArgsAll(d, exec.args, exts, ap), EnvAll(d, exec.env, exts, ep);
            && (ApplyAll(d, exec, exts, ap, ep).Ok? <==> args.Ok? && env.Ok?)
            && (args.Ok? && env.Ok? ==>
                  ApplyAll(d, exec, exts, ap, ep) == Ok(exec.(args := args.value, env := env.value)))
    decreases |exts|
  {
    if exts != [] {
      var step := ApplyExtension(d, exec, exts[0], ap, ep);
      if step.Ok? {
        ApplyAllMeaning(d, step.value, exts[1..], ap, ep);
      }
    }
  }

  /** The fold goes on with the rest unless it has stopped. */
  ghost function Continue(d: Decoder, r: Result<ExecValue>, rest: seq<ExtensionValue>, ap: ArgsPolicy,
                          ep: EnvPolicy): Result<ExecValue> {
    match r
    case Ok(exec) => ApplyAll(d, exec, rest, ap, ep)
    case Err(e) => Err(e)
    case Panic => Panic
  }

  /** The fold from the i-th extension on takes its step and goes on from the next. */
  lemma ApplyAllNext(d: Decoder, exec: ExecValue, exts: seq<ExtensionValue>, i: nat, ap: ArgsPolicy, ep: EnvPolicy)
    requires i < |exts|
    ensures ApplyAll(d, exec, exts[i..], ap, ep)
            == Continue(d, ApplyExtension(d, exec, exts[i], ap, ep), exts[i + 1..], ap, ep)
  {
    assert exts[i..][0] == exts[i] && exts[i..][1..] == exts[i + 1..];
  }

  /** The arguments the additional-args extensions bring, in list order. */
  function ArgsBrought(d: Decoder, exts: seq<ExtensionValue>, ap: ArgsPolicy): seq<string> {
    if exts == [] then []
    else
      var x := exts[0];
      var brings := x.name == AdditionalArgsKey && ap == ArgsAppend && d.args(Data(x.raw)).Args?;
      (if brings then d.args(Data(x.raw)).items else []) + ArgsBrought(d, exts[1..], ap)
  }

  lemma {:induction false} ArgsAllMeaning(d: Decoder, args: Slice<string>, exts: seq<ExtensionValue>, ap: ArgsPolicy)
    requires ArgsAll(d, args, exts, ap).Ok?
    ensures Data(ArgsAll(d, args, exts, ap).value) == Data(args) + ArgsBrought(d, exts, ap)
    decreases |exts|
  {
    if exts == [] {
    } else if exts[0].name != AdditionalArgsKey {
      ArgsAllMeaning(d, args, exts[1..], ap);
    } else {
      var next := MergeArgs(d, args, Data(exts[0].raw), ap).value;
      ArgsAllMeaning(d, next, exts[1..], ap);
      assert Data(next) + ArgsBrought(d, exts[1..], ap) == Data(args) + ArgsBrought(d, exts, ap);
    }
  }

  // ----- the conversion -----

  /** Among the extensions of one name only the last has an object. */
  ghost predicate Convertible(exts: seq<ExtensionValue>) {
    forall i, j :: 0 <= i < j < |exts| && exts[i].name == exts[j].name ==> IsNull(exts[i].raw)
  }

  /** The data of the last extension of this name. */
  function Last(exts: seq<ExtensionValue>, name: ExtensionName): Option<Slice<byte>> {
    if exts == [] then None
    else
      var last := exts[|exts| - 1];
      if last.name == name then Some(last.raw) else Last(exts[..|exts| - 1], name)
  }

  lemma {:induction false} LastMeaning(exts: seq<ExtensionValue>, name: ExtensionName)
    ensures Last(exts, name).None? <==> forall x :: x in exts ==> x.name != name
    ensures Last(exts, name).Some? ==>
              exists i :: && 0 <= i < |exts| && exts[i] == ExtensionValue(name, Last(exts, name).value)
                          && forall j :: i < j < |exts| ==> exts[j].name != name
  {
    if exts != [] {
      var n := |exts| - 1;
      var front := exts[..n];
      LastMeaning(front, name);
      assert exts == front + [exts[n]];
      if exts[n].name == name {
        assert exts[n] == ExtensionValue(name, Last(exts, name).value);
      } else if Last(front, name).Some? {
        var i :| && 0 <= i < n && front[i] == ExtensionValue(name, Last(front, name).value)
                 && forall j :: i < j < n ==> front[j].name != name;
        assert exts[i] == front[i];
      }
    }
  }

  lemma ConvertibleAppend(front: seq<ExtensionValue>, x: ExtensionValue)
    ensures Convertible(front + [x]) <==>
            Convertible(front) && forall y :: y in front && y.name == x.name ==> IsNull(y.raw)
  {
    var all := front + [x];
    if Convertible(all) {
      forall i, j | 0 <= i < j < |front| && front[i].name == front[j].name ensures IsNull(front[i].raw) {
        assert all[i] == front[i] && all[j] == front[j];
      }
      forall y | y in front && y.name == x.name ensures IsNull(y.raw) {
        var i :| 0 <= i < |front| && front[i] == y;
        assert all[i] == y && all[|front|] == x;
      }
    }
    if Convertible(front) && forall y :: y in front && y.name == x.name ==> IsNull(y.raw) {
      forall i, j | 0 <= i < j < |all| && all[i].name == all[j].name ensures IsNull(all[i].raw) {
        assert all[i] == front[i] && front[i] in front;
        assert j < |front| ==> all[j] == front[j];
      }
    }
  }

  /** In a convertible list the last extension of a name is the only one that may have an object. */
  lemma ConvertibleObjects(exts: seq<ExtensionValue>, name: ExtensionName)
    requires Convertible(exts)
    ensures (exists y :: y in exts && y.name == name && !IsNull(y.raw)) <==>
            Last(exts, name).Some? && !IsNull(Last(exts, name).value)
  {
    LastMeaning(exts, name);
    if y :| y in exts && y.name == name && !IsNull(y.raw) {
      var k :| 0 <= k < |exts| && exts[k] == y;
      var i :| && 0 <= i < |exts| && exts[i] == ExtensionValue(name, Last(exts, name).value)
               && forall j :: i < j < |exts| ==> exts[j].name != name;
      assert k == i;
    }
  }

  /** The conversion succeeds exactly on the convertible lists, and gives each name the object of
      its last extension. */
  lemma {:induction false} ConvertMeaning(exts: seq<ExtensionValue>)
    ensures Convert(exts).Some? <==> Convertible(exts)
    ensures Convert(exts).Some? ==>
              forall name :: && (name in Convert(exts).value <==> Last(exts, name).Some?)
                             && (name in Convert(exts).value ==>
                                   Convert(exts).value[name] == ObjectOf(Last(exts, name).value))
  {
    if exts != [] {
      var n := |exts| - 1;
      var front, x := exts[..n], exts[n];
      ConvertMeaning(front);
      ConvertibleAppend(front, x);
      assert exts == front + [x];
      if Convertible(front) {
        ConvertibleObjects(front, x.name);
      }
    }
  }

  /** The conversion of one more extension. */
  lemma ConvertAppend(front: seq<ExtensionValue>, x: ExtensionValue)
    requires Convert(front).Some?
    ensures var m := Convert(front).value;
            Convert(front + [x]) ==
            if x.name in m && m[x.name] != Nil then None else Some(m[x.name := ObjectOf(x.raw)])
  {
    assert (front + [x])[..|front|] == front;
  }

  lemma {:induction false} ConvertStops(exts: seq<ExtensionValue>, i: nat)
    requires i <= |exts|
    ensures Convert(exts[..i]).None? ==> Convert(exts).None?
  {
    var n := |exts| - 1;
    if i == |exts| {
      assert exts[..i] == exts;
    } else {
      assert exts[..n][..i] == exts[..i];
      ConvertStops(exts[..n], i);
    }
  }

  /** One step of the conversion. */
  lemma ConvertNext(exts: seq<ExtensionValue>, i: nat)
    requires i < |exts| && Convert(exts[..i]).Some?
    ensures var m, x := Convert(exts[..i]).value, exts[i];
            Convert(exts[..i + 1]) ==
            if x.name in m && m[x.name] != Nil then None else Some(m[x.name := ObjectOf(x.raw)])
  {
    ConvertAppend(exts[..i], exts[i]);
    PrefixNext(exts, i);
  }

  // ----- the order of extensions -----

  /** Every extension whose name repeats has null data. */
  ghost predicate RepeatsNull(exts: seq<ExtensionValue>) {
    forall i, j :: 0 <= i < j < |exts| && exts[i].name == exts[j].name ==> IsNull(exts[i].raw) && IsNull(exts[j].raw)
  }

  /** Null data decode to no arguments and no mapping, as they do for a YAML or JSON decoder. */
  predicate NullsAreNothing(d: Decoder) {
    && d.args([]) == Args([]) && d.args(NULL_TEXT) == Args([])
    && d.env([]) == NilMapping && d.env(NULL_TEXT) == NilMapping
  }

  /** Repeated extensions have null data, and those decode to nothing if there are any. */
  ghost predicate RepeatsNothing(d: Decoder, exts: seq<ExtensionValue>) {
    RepeatsNull(exts) && (NullsAreNothing(d) || DistinctExtensions(exts))
  }

  /** Two extensions of one name are the same or both null. */
  lemma Alike(exts: seq<ExtensionValue>, x: ExtensionValue, y: ExtensionValue)
    requires RepeatsNull(exts) && x in exts && y in exts && x.name == y.name
    ensures x == y || (IsNull(x.raw) && IsNull(y.raw))
    ensures DistinctExtensions(exts) ==> x == y
  {
    var i :| 0 <= i < |exts| && exts[i] == x;
    var j :| 0 <= j < |exts| && exts[j] == y;
    if i < j {
      assert IsNull(exts[i].raw) && IsNull(exts[j].raw);
    } else if j < i {
      assert IsNull(exts[j].raw) && IsNull(exts[i].raw);
    }
  }

  lemma {:induction false} TwicePlaces<T(!new)>(s: seq<T>, x: T)
    requires multiset(s)[x] >= 2
    ensures exists i, j :: 0 <= i < j < |s| && s[i] == s[j] == x
  {
    TailMultiset(s);
    if s[0] == x {
      assert x in multiset(s[1..]);
      var j :| 0 <= j < |s[1..]| && s[1..][j] == x;
      assert s[0] == s[j + 1] == x;
    } else {
      TwicePlaces(s[1..], x);
      var i, j :| 0 <= i < j < |s[1..]| && s[1..][i] == s[1..][j] == x;
      assert s[i + 1] == s[j + 1] == x;
    }
  }

  lemma RepeatsNullPermutation(a: seq<ExtensionValue>, b: seq<ExtensionValue>)
    requires multiset(a) == multiset(b) && RepeatsNull(a)
    ensures RepeatsNull(b)
  {
    SameElements(a, b);
    forall i, j | 0 <= i < j < |b| && b[i].name == b[j].name ensures IsNull(b[i].raw) && IsNull(b[j].raw) {
      assert b[i] in a && b[j] in a;
      Alike(a, b[i], b[j]);
      if b[i] == b[j] {
        RepeatedTwice(b, i, j);
        TwicePlaces(a, b[i]);
      }
    }
  }

  lemma DistinctPermutation(a: seq<ExtensionValue>, b: seq<ExtensionValue>)
    requires multiset(a) == multiset(b) && DistinctExtensions(a)
    ensures DistinctExtensions(b)
  {
    SameElements(a, b);
    NoDuplicatesPermutation(a, b);
    forall i, j | 0 <= i < j < |b| ensures b[i].name != b[j].name {
      assert b[i] in a && b[j] in a;
      assert RepeatsNull(a);
      if b[i].name == b[j].name {
        Alike(a, b[i], b[j]);
      }
    }
  }

  lemma {:induction false} NoneOfThem(d: Decoder, args: Slice<string>, env: Slice<EnvVar>, exts: seq<ExtensionValue>,
                                      ap: ArgsPolicy, ep: EnvPolicy)
    ensures (forall x :: x in exts ==> x.name != AdditionalArgsKey) ==> ArgsAll(d, args, exts, ap) == Ok(args)
    ensures (forall x :: x in exts ==> x.name != AdditionalEnvsKey) ==> EnvAll(d, env, exts, ep) == Ok(env)
    decreases |exts|
  {
    if exts != [] {
      assert exts[0] in exts && forall x :: x in exts[1..] ==> x in exts;
      NoneOfThem(d, args, env, exts[1..], ap, ep);
    }
  }

  lemma NullMerges(d: Decoder, args: Slice<string>, env: Slice<EnvVar>, raw: Slice<byte>, ap: ArgsPolicy, ep: EnvPolicy)
    requires NullsAreNothing(d) && IsNull(raw)
    ensures MergeArgs(d, args, Data(raw), ap) == MergeArgs(d, args, [], ap)
    ensures MergeArgs(d, args, [], ap).Ok? ==> MergeArgs(d, args, [], ap) == Ok(args)
    ensures MergeEnv(d, env, Data(raw), ep) == MergeEnv(d, env, [], ep)
    ensures var first := MergeEnv(d, env, [], ep); first.Ok? ==> MergeEnv(d, first.value, [], ep) == first
  {
  }

  /** Under the condition, folding the arguments is merging any one of the extensions for them. */
  lemma {:induction false} ArgsOfOne(d: Decoder, args: Slice<string>, exts: seq<ExtensionValue>, ap: ArgsPolicy,
                                     x: ExtensionValue)
    requires RepeatsNothing(d, exts) && x in exts && x.name == AdditionalArgsKey
    ensures ArgsAll(d, args, exts, ap) == MergeArgs(d, args, Data(x.raw), ap)
    decreases |exts|
  {
    var h, rest := exts[0], exts[1..];
    TailMultiset(exts);
    RepeatsTail(d, exts);
    if h.name != AdditionalArgsKey {
      ArgsOfOne(d, args, rest, ap, x);
    } else if y :| y in rest && y.name == AdditionalArgsKey {
      RepeatedHead(d, exts, y, x);
      NullMerges(d, args, Nil, h.raw, ap, EnvUnset);
      NullMerges(d, args, Nil, x.raw, ap, EnvUnset);
      NullMerges(d, args, Nil, y.raw, ap, EnvUnset);
      ArgsOfOne(d, args, rest, ap, y);
    } else {
      Alike(exts, h, x);
      assert x == h;
      forall next { NoneOfThem(d, next, Nil, rest, ap, EnvUnset); }
    }
  }

  lemma RepeatsTail(d: Decoder, exts: seq<ExtensionValue>)
    requires RepeatsNothing(d, exts) && exts != []
    ensures RepeatsNothing(d, exts[1..])
  {
    var rest := exts[1..];
    assert forall k :: 0 <= k < |rest| ==> rest[k] == exts[k + 1];
  }

  /** The first extension's name occurs again: it and all extensions of its name are null. */
  lemma RepeatedHead(d: Decoder, exts: seq<ExtensionValue>, y: ExtensionValue, x: ExtensionValue)
    requires RepeatsNothing(d, exts) && exts != [] && y in exts[1..] && x in exts
    requires exts[0].name == y.name == x.name
    ensures NullsAreNothing(d) && IsNull(exts[0].raw) && IsNull(y.raw) && IsNull(x.raw)
  {
    var k :| 0 <= k < |exts[1..]| && exts[1..][k] == y;
    assert exts[k + 1] == y;
    Alike(exts, exts[0], x);
  }

  lemma {:induction false} EnvOfOne(d: Decoder, env: Slice<EnvVar>, exts: seq<ExtensionValue>, ep: EnvPolicy,
                                    x: ExtensionValue)
    requires RepeatsNothing(d, exts) && x in exts && x.name == AdditionalEnvsKey
    ensures EnvAll(d, env, exts, ep) == MergeEnv(d, env, Data(x.raw), ep)
    decreases |exts|
  {
    var h, rest := exts[0], exts[1..];
    TailMultiset(exts);
    RepeatsTail(d, exts);
    if h.name != AdditionalEnvsKey {
      EnvOfOne(d, env, rest, ep, x);
    } else if y :| y in rest && y.name == AdditionalEnvsKey {
      RepeatedHead(d, exts, y, x);
      NullMerges(d, Nil, env, h.raw, ArgsUnset, ep);
      NullMerges(d, Nil, env, x.raw, ArgsUnset, ep);
      var step := MergeEnv(d, env, Data(h.raw), ep);
      if step.Ok? {
        EnvOfOne(d, step.value, rest, ep, y);
        NullMerges(d, Nil, step.value, y.raw, ArgsUnset, ep);
      }
    } else {
      Alike(exts, h, x);
      assert x == h;
      forall next { NoneOfThem(d, Nil, next, rest, ArgsUnset, ep); }
    }
  }

  lemma FoldsPermutation(d: Decoder, args: Slice<string>, env: Slice<EnvVar>, a: seq<ExtensionValue>,
                         b: seq<ExtensionValue>, ap: ArgsPolicy, ep: EnvPolicy)
    requires RepeatsNothing(d, a) && RepeatsNothing(d, b) && multiset(a) == multiset(b)
    ensures ArgsAll(d, args, a, ap) == ArgsAll(d, args, b, ap) && EnvAll(d, env, a, ep) == EnvAll(d, env, b, ep)
  {
    SameElements(a, b);
    NoneOfThem(d, args, env, a, ap, ep);
    NoneOfThem(d, args, env, b, ap, ep);
    if x :| x in a && x.name == AdditionalArgsKey {
      ArgsOfOne(d, args, a, ap, x);
      ArgsOfOne(d, args, b, ap, x);
    }
    if x :| x in a && x.name == AdditionalEnvsKey {
      EnvOfOne(d, env, a, ep, x);
      EnvOfOne(d, env, b, ep, x);
    }
  }

  lemma ConvertPermutation(a: seq<ExtensionValue>, b: seq<ExtensionValue>)
    requires RepeatsNull(a) && RepeatsNull(b) && multiset(a) == multiset(b)
    ensures Convert(a).Some? && Convert(b) == Convert(a)
  {
    SameElements(a, b);
    ConvertMeaning(a);
    ConvertMeaning(b);
    var m, n := Convert(a).value, Convert(b).value;
    forall name ensures (name in m <==> name in n) && (name in m ==> m[name] == n[name]) {
      LastMeaning(a, name);
      LastMeaning(b, name);
      if name in m {
        var x, y := ExtensionValue(name, Last(a, name).value), ExtensionValue(name, Last(b, name).value);
        assert x in a && y in b;
        Alike(a, x, y);
      }
    }
    assert m == n;
  }

  lemma RepeatsNothingPermutation(d: Decoder, a: seq<ExtensionValue>, b: seq<ExtensionValue>)
    requires multiset(a) == multiset(b) && RepeatsNothing(d, a)
    ensures RepeatsNothing(d, b)
  {
    RepeatsNullPermutation(a, b);
    if DistinctExtensions(a) {
      DistinctPermutation(a, b);
    }
  }

  lemma ApplyAllPermutation(d: Decoder, exec: ExecValue, a: seq<ExtensionValue>, b: seq<ExtensionValue>,
                            ap: ArgsPolicy, ep: EnvPolicy)
    requires RepeatsNothing(d, a) && RepeatsNothing(d, b) && multiset(a) == multiset(b)
    requires ApplyAll(d, exec, a, ap, ep).Ok?
    ensures ApplyAll(d, exec, b, ap, ep) == ApplyAll(d, exec, a, ap, ep)
  {
    ApplyAllMeaning(d, exec, a, ap, ep);
    ApplyAllMeaning(d, exec, b, ap, ep);
    FoldsPermutation(d, exec.args, exec.env, a, b, ap, ep);
  }

  /** When repeated extensions come to nothing, their order does not matter, nor that of the others. */
  lemma ReorderedBuild(d: Decoder, exec: ExecValue, ap: ArgsPolicy, ep: EnvPolicy, c: ClusterValue,
                       exts: seq<ExtensionValue>)
    requires c.extensions.Items? && multiset(exts) == multiset(c.extensions.items)
    requires BuildFor(d, exec, ap, ep, c).Ok? && RepeatsNothing(d, c.extensions.items)
    ensures BuildFor(d, exec, ap, ep, c.(extensions := Items(exts))) == BuildFor(d, exec, ap, ep, c)
  {
    var own := c.extensions.items;
    RepeatsNothingPermutation(d, own, exts);
    ApplyAllPermutation(d, exec, own, exts, ap, ep);
    ConvertPermutation(own, exts);
  }

  /** Among distinct names order never matters, whatever the decoder. */
  lemma DistinctOrderIrrelevant(d: Decoder, exec: ExecValue, ap: ArgsPolicy, ep: EnvPolicy, c: ClusterValue,
                                exts: seq<ExtensionValue>)
    requires c.extensions.Items? && multiset(exts) == multiset(c.extensions.items)
    requires BuildFor(d, exec, ap, ep, c).Ok? && DistinctExtensions(c.extensions.items)
    ensures BuildFor(d, exec, ap, ep, c.(extensions := Items(exts))) == BuildFor(d, exec, ap, ep, c)
  {
    ReorderedBuild(d, exec, ap, ep, c, exts);
  }

  /** An order that is refused: an extension with an object moved before another of its name. */
  lemma RefusedOrder(exts: seq<ExtensionValue>) returns (swapped: seq<ExtensionValue>)
    requires Convertible(exts) && !RepeatsNull(exts)
    ensures multiset(swapped) == multiset(exts) && Convert(swapped).None?
  {
    var i, j :| && 0 <= i < j < |exts| && exts[i].name == exts[j].name
                && !(IsNull(exts[i].raw) && IsNull(exts[j].raw));
    swapped := exts[i := exts[j]][j := exts[i]];
    assert swapped[i].name == swapped[j].name && !IsNull(swapped[i].raw);
    ConvertMeaning(swapped);
  }

  /** A configuration that is built is independent of the order of the extensions exactly when no
      name repeats with data other than null. */
  lemma ExtensionOrderIrrelevant(d: Decoder, exec: ExecValue, ap: ArgsPolicy, ep: EnvPolicy, c: ClusterValue)
    requires c.extensions.Items? && BuildFor(d, exec, ap, ep, c).Ok? && NullsAreNothing(d)
    ensures RepeatsNull(c.extensions.items) <==>
            forall exts :: multiset(exts) == multiset(c.extensions.items) ==>
                             BuildFor(d, exec, ap, ep, c.(extensions := Items(exts))) == BuildFor(d, exec, ap, ep, c)
  {
    if RepeatsNull(c.extensions.items) {
      forall exts | multiset(exts) == multiset(c.extensions.items)
        ensures BuildFor(d, exec, ap, ep, c.(extensions := Items(exts))) == BuildFor(d, exec, ap, ep, c)
      {
        ReorderedBuild(d, exec, ap, ep, c, exts);
      }
    } else {
      ConvertMeaning(c.extensions.items);
      var swapped := RefusedOrder(c.extensions.items);
      assert !BuildFor(d, exec, ap, ep, c.(extensions := Items(swapped))).Ok?;
    }
  }

  /** A built configuration: the arguments are the provider's followed by the decoded ones under
      Append, the provider's alone otherwise; the environment is the fold of the extensions for
      it; the plugin is configured by the last reserved extension, which may take the
      configuration away; the command, the API version and the cluster information are passed
      on, and the plugin is never interactive. */
  lemma BuiltMeaning(d: Decoder, exec: ExecValue, ap: ArgsPolicy, ep: EnvPolicy, c: ClusterValue)
    requires BuildFor(d, exec, ap, ep, c).Ok?
    ensures var r, exts := BuildFor(d, exec, ap, ep, c).value, Data(c.extensions);
            && Convertible(exts)
            && Data(r.exec.args) == Data(exec.args) + ArgsBrought(d, exts, ap)
            && EnvAll(d, exec.env, exts, ep) == Ok(r.exec.env)
            && r.exec.config == (match Last(exts, ExecKey)
                                 case None => exec.config
                                 case Some(raw) => if IsNull(raw) then PluginConfig(NoOrigin, Nil)
                                                   else PluginConfig(FromExtension, raw))
            && r.exec.command == exec.command && r.exec.apiVersion == exec.apiVersion
            && r.exec.interactiveMode == "Never" && r.exec.provideClusterInfo == exec.provideClusterInfo
            && r.host == c.server && r.caData == c.caData && r.serverName == c.tlsServerName && r.proxyURL == c.proxyURL
            && r.insecure == c.insecureSkipTLSVerify && r.disableCompression == c.disableCompression
  {
    ApplyAllMeaning(d, exec, Data(c.extensions), ap, ep);
    ArgsAllMeaning(d, exec.args, Data(c.extensions), ap);
    ConvertMeaning(Data(c.extensions));
  }

  // ----- when folding fails -----

  predicate Merging(ep: EnvPolicy) {
    ep == EnvAppendIfNotExists || ep == EnvReplace
  }

  /** The extension is refused under the policies: an unknown policy, or malformed data where the
      policy reads them. */
  predicate IsRefused(d: Decoder, x: ExtensionValue, ap: ArgsPolicy, ep: EnvPolicy) {
    match x.name
    case AdditionalArgsKey => ap.ArgsOther? || (ap == ArgsAppend && d.args(Data(x.raw)).MalformedArgs?)
    case AdditionalEnvsKey => ep.EnvOther? || (Merging(ep) && d.env(Data(x.raw)).MalformedEnv?)
    case _ => false
  }

  /** The extension brings at least one variable. */
  predicate BringsVariables(d: Decoder, x: ExtensionValue) {
    x.name == AdditionalEnvsKey && d.env(Data(x.raw)).Mapping? && d.env(Data(x.raw)).vars != map[]
  }

  /** The k-th extension writes to a nil map: its data decodes to nothing while there already are
      variables, the provider's own or those an earlier extension brought. */
  ghost predicate WritesNilMap(d: Decoder, env: Slice<EnvVar>, exts: seq<ExtensionValue>, ep: EnvPolicy, k: nat)
    requires k < |exts|
  {
    && Merging(ep) && exts[k].name == AdditionalEnvsKey && d.env(Data(exts[k].raw)).NilMapping?
    && (Data(env) != [] || exists j :: 0 <= j < k && BringsVariables(d, exts[j]))
  }

  ghost predicate NoneRefused(d: Decoder, exts: seq<ExtensionValue>, ap: ArgsPolicy, ep: EnvPolicy) {
    forall x :: x in exts ==> !IsRefused(d, x, ap, ep)
  }

  /** The fold reaches the k-th extension, which writes to a nil map. */
  ghost predicate PanicsAt(d: Decoder, env: Slice<EnvVar>, exts: seq<ExtensionValue>, ap: ArgsPolicy, ep: EnvPolicy,
          k: nat)
    requires k < |exts|
  {
    WritesNilMap(d, env, exts, ep, k) && NoneRefused(d, exts[..k], ap, ep)
  }

  /** A merged environment is empty only if both sources are. */
  lemma MergeEnvEmpty(d: Decoder, env: Slice<EnvVar>, x: ExtensionValue, ep: EnvPolicy)
    requires x.name == AdditionalEnvsKey && Merging(ep) && MergeEnv(d, env, Data(x.raw), ep).Ok?
    ensures Data(MergeEnv(d, env, Data(x.raw), ep).value) != [] <==> Data(env) != [] || BringsVariables(d, x)
  {
    var own, merged := Data(env), Data(MergeEnv(d, env, Data(x.raw), ep).value);
    if d.env(Data(x.raw)).Mapping? {
      var m := d.env(Data(x.raw)).vars;
      MergeEnvMeaning(d, env, Data(x.raw), ep, merged);
      assert merged != [] ==> Names(merged, merged[0].name);
      if own != [] {
        assert Names(own, own[0].name) && Names(merged, own[0].name);
      } else if m != map[] {
        var name :| name in m;
        assert Names(merged, name);
      }
    }
  }

  /** One extension: refused, writing to a nil map, or leaving the environment as the rest of
      the fold will see it. */
  lemma StepOutcome(d: Decoder, exec: ExecValue, x: ExtensionValue, ap: ArgsPolicy, ep: EnvPolicy)
    ensures ApplyExtension(d, exec, x, ap, ep).Err? <==> IsRefused(d, x, ap, ep)
    ensures ApplyExtension(d, exec, x, ap, ep).Panic? <==> WritesNilMap(d, exec.env, [x], ep, 0)
    ensures ApplyExtension(d, exec, x, ap, ep).Ok? && Merging(ep) ==>
              (Data(ApplyExtension(d, exec, x, ap, ep).value.env) != [] <==>
                  Data(exec.env) != [] || BringsVariables(d, x))
  {
    if x.name == AdditionalEnvsKey && Merging(ep) && MergeEnv(d, exec.env, Data(x.raw), ep).Ok? {
      MergeEnvEmpty(d, exec.env, x, ep);
    }
  }

  /** Seen from the second extension on, `env` being what the first one leaves. */
  lemma WritesNilMapTail(d: Decoder, before: Slice<EnvVar>, env: Slice<EnvVar>, exts: seq<ExtensionValue>,
          ep: EnvPolicy, k: nat)
    requires 0 < k < |exts|
    requires Merging(ep) ==> (Data(env) != [] <==> Data(before) != [] || BringsVariables(d, exts[0]))
    ensures WritesNilMap(d, before, exts, ep, k) <==> WritesNilMap(d, env, exts[1..], ep, k - 1)
  {
    var rest := exts[1..];
    assert rest[k - 1] == exts[k];
    if j :| 0 <= j < k && BringsVariables(d, exts[j]) {
      assert j > 0 ==> BringsVariables(d, rest[j - 1]);
    }
    if j :| 0 <= j < k - 1 && BringsVariables(d, rest[j]) {
      assert BringsVariables(d, exts[j + 1]);
    }
  }

  lemma NoneRefusedTail(d: Decoder, exts: seq<ExtensionValue>, ap: ArgsPolicy, ep: EnvPolicy, k: nat)
    requires 0 < k <= |exts|
    ensures NoneRefused(d, exts[..k], ap, ep) <==>
              !IsRefused(d, exts[0], ap, ep) && NoneRefused(d, exts[1..][..k - 1], ap, ep)
  {
    TailMultiset(exts[..k]);
    assert exts[..k][1..] == exts[1..][..k - 1];
    assert forall x :: x in exts[..k] <==> x == exts[0] || x in exts[1..][..k - 1];
  }

  lemma PanicsAtTail(d: Decoder, before: Slice<EnvVar>, env: Slice<EnvVar>, exts: seq<ExtensionValue>,
                     ap: ArgsPolicy, ep: EnvPolicy, k: nat)
    requires 0 < k < |exts| && !IsRefused(d, exts[0], ap, ep)
    requires Merging(ep) ==> (Data(env) != [] <==> Data(before) != [] || BringsVariables(d, exts[0]))
    ensures PanicsAt(d, before, exts, ap, ep, k) <==> PanicsAt(d, env, exts[1..], ap, ep, k - 1)
  {
    WritesNilMapTail(d, before, env, exts, ep, k);
    NoneRefusedTail(d, exts, ap, ep, k);
  }

  /** Folding panics exactly when some extension writes to a nil map before any is refused. Names
      may repeat. */
  lemma {:induction false} FoldPanics(d: Decoder, exec: ExecValue, exts: seq<ExtensionValue>, ap: ArgsPolicy,
          ep: EnvPolicy)
    ensures ApplyAll(d, exec, exts, ap, ep).Panic? <==>
            exists k :: 0 <= k < |exts| && PanicsAt(d, exec.env, exts, ap, ep, k)
    decreases |exts|
  {
    if exts != [] {
      var x, rest := exts[0], exts[1..];
      StepOutcome(d, exec, x, ap, ep);
      var step := ApplyExtension(d, exec, x, ap, ep);
      assert WritesNilMap(d, exec.env, [x], ep, 0) <==> WritesNilMap(d, exec.env, exts, ep, 0);
      if step.Err? {
        forall k | 0 <= k < |exts| ensures !PanicsAt(d, exec.env, exts, ap, ep, k) {
          assert k > 0 ==> x in exts[..k] by { assert k > 0 ==> exts[..k][0] == x; }
        }
      } else if step.Panic? {
        assert PanicsAt(d, exec.env, exts, ap, ep, 0);
      } else {
        FoldPanics(d, step.value, rest, ap, ep);
        forall k | 0 < k < |exts|
          ensures PanicsAt(d, exec.env, exts, ap, ep, k) <==> PanicsAt(d, step.value.env, rest, ap, ep, k - 1)
        {
          PanicsAtTail(d, exec.env, step.value.env, exts, ap, ep, k);
        }
        if k :| 0 <= k < |rest| && PanicsAt(d, step.value.env, rest, ap, ep, k) {
          assert PanicsAt(d, exec.env, exts, ap, ep, k + 1);
        }
      }
    }
  }

  /** Folding succeeds exactly when no extension is refused and none writes to a nil map. */
  lemma {:induction false} FoldSucceeds(d: Decoder, exec: ExecValue, exts: seq<ExtensionValue>, ap: ArgsPolicy,
          ep: EnvPolicy)
    ensures ApplyAll(d, exec, exts, ap, ep).Ok? <==>
            && NoneRefused(d, exts, ap, ep)
            && forall k :: 0 <= k < |exts| ==> !WritesNilMap(d, exec.env, exts, ep, k)
    decreases |exts|
  {
    if exts != [] {
      var x, rest := exts[0], exts[1..];
      StepOutcome(d, exec, x, ap, ep);
      var step := ApplyExtension(d, exec, x, ap, ep);
      assert WritesNilMap(d, exec.env, [x], ep, 0) <==> WritesNilMap(d, exec.env, exts, ep, 0);
      if step.Ok? {
        FoldSucceeds(d, step.value, rest, ap, ep);
        NoneRefusedTail(d, exts, ap, ep, |exts|);
        assert exts[..|exts|] == exts && rest[..|rest|] == rest;
        forall k | 0 < k < |exts|
          ensures WritesNilMap(d, exec.env, exts, ep, k) <==> WritesNilMap(d, step.value.env, rest, ep, k - 1)
        {
          WritesNilMapTail(d, exec.env, step.value.env, exts, ep, k);
        }
        if k :| 0 <= k < |rest| && WritesNilMap(d, step.value.env, rest, ep, k) {
          assert WritesNilMap(d, exec.env, exts, ep, k + 1);
        }
      }
    }
  }

  /** A configuration is built exactly when among the extensions of each name all but the last have
      null data, no extension is refused and none writes to a nil map. */
  lemma BuiltExactly(d: Decoder, exec: ExecValue, ap: ArgsPolicy, ep: EnvPolicy, c: ClusterValue)
    ensures var exts := Data(c.extensions);
            BuildFor(d, exec, ap, ep, c).Ok? <==>
            && Convertible(exts) && NoneRefused(d, exts, ap, ep)
            && forall k :: 0 <= k < |exts| ==> !WritesNilMap(d, exec.env, exts, ep, k)
  {
    FoldSucceeds(d, exec, Data(c.extensions), ap, ep);
    ConvertMeaning(Data(c.extensions));
  }

  /** Building panics exactly when a merging policy meets an extension whose data decodes to
      nothing while there are variables already, the provider's or an earlier extension's, and
      no extension before it is refused. */
  lemma PanicMeaning(d: Decoder, exec: ExecValue, ap: ArgsPolicy, ep: EnvPolicy, c: ClusterValue)
    ensures var exts := Data(c.extensions);
            BuildFor(d, exec, ap, ep, c).Panic? <==>
            exists k :: 0 <= k < |exts| && PanicsAt(d, exec.env, exts, ap, ep, k)
  {
    FoldPanics(d, exec, Data(c.extensions), ap, ep);
  }

  /** When no extension name repeats, the variables in the way are the provider's own. */
  lemma DistinctPanicMeaning(d: Decoder, exec: ExecValue, ap: ArgsPolicy, ep: EnvPolicy, c: ClusterValue)
    requires DistinctExtensions(Data(c.extensions))
    ensures var exts := Data(c.extensions);
            BuildFor(d, exec, ap, ep, c).Panic? <==>
            && Merging(ep) && Data(exec.env) != []
            && exists k :: 0 <= k < |exts| && exts[k].name == AdditionalEnvsKey && d.env(Data(exts[k].raw)).NilMapping?
                           && NoneRefused(d, exts[..k], ap, ep)
  {
    var exts := Data(c.extensions);
    PanicMeaning(d, exec, ap, ep, c);
    if k :| 0 <= k < |exts| && PanicsAt(d, exec.env, exts, ap, ep, k) {
      assert forall j :: 0 <= j < k ==> !BringsVariables(d, exts[j]);
    }
    if k :| Merging(ep) && Data(exec.env) != [] && 0 <= k < |exts| && exts[k].name == AdditionalEnvsKey
            && d.env(Data(exts[k].raw)).NilMapping? && NoneRefused(d, exts[..k], ap, ep) {
      assert PanicsAt(d, exec.env, exts, ap, ep, k);
    }
  }

  /** The text `{"A":"1"}`. */
  const ONE_VARIABLE: seq<byte> := [123, 34, 65, 34, 58, 34, 49, 34, 125]

  /** A decoder that knows the text of one variable and the null texts, and nothing else. */
  function SampleDecoder(): Decoder {
    Decoder(
      raw => if raw == [] || raw == NULL_TEXT then Args([]) else MalformedArgs("not a list"),
      raw => if raw == [] || raw == NULL_TEXT then NilMapping
             else if raw == ONE_VARIABLE then Mapping(map["A" := "1"])
             else MalformedEnv("not a mapping"))
  }

  function SampleCluster(exts: seq<ExtensionValue>): ClusterValue {
    ClusterValue("https://member", "", false, Nil, "", false, Items(exts))
  }

  function SampleExec(env: Slice<EnvVar>): ExecValue {
    ExecValue("v1", "login", Nil, env, "", "", false, PluginConfig(NoOrigin, Nil))
  }

  /** A build that panics: the provider has a variable, the extension's data are empty. */
  lemma NilDataPanics() returns (d: Decoder, exec: ExecValue, c: ClusterValue)
    ensures NullsAreNothing(d) && Data(exec.env) == [EnvVar("B", "2")]
    ensures c.extensions == Items([ExtensionValue(AdditionalEnvsKey, Nil)])
    ensures BuildFor(d, exec, ArgsIgnore, EnvReplace, c).Panic?
  {
    var exts := [ExtensionValue(AdditionalEnvsKey, Nil)];
    d, exec, c := SampleDecoder(), SampleExec(Items([EnvVar("B", "2")])), SampleCluster(exts);
    PanicMeaning(d, exec, ArgsIgnore, EnvReplace, c);
    assert PanicsAt(d, exec.env, exts, ArgsIgnore, EnvReplace, 0);
  }

  /** A build that panics although the provider has no variables: the extension is given twice,
      first with a variable, then with empty data. */
  lemma RepeatedNamePanics() returns (d: Decoder, exec: ExecValue, c: ClusterValue)
    ensures NullsAreNothing(d) && exec.env == Nil
    ensures c.extensions ==
            Items([ExtensionValue(AdditionalEnvsKey, Items(ONE_VARIABLE)), ExtensionValue(AdditionalEnvsKey, Nil)])
    ensures BuildFor(d, exec, ArgsIgnore, EnvReplace, c).Panic?
  {
    var exts := [ExtensionValue(AdditionalEnvsKey, Items(ONE_VARIABLE)), ExtensionValue(AdditionalEnvsKey, Nil)];
    d, exec, c := SampleDecoder(), SampleExec(Nil), SampleCluster(exts);
    PanicMeaning(d, exec, ArgsIgnore, EnvReplace, c);
    assert BringsVariables(d, exts[0]) by {
      assert "A" in map["A" := "1"];
    }
    assert PanicsAt(d, exec.env, exts, ArgsIgnore, EnvReplace, 1);
  }

  /** One list of extensions in two orders: the first is built, the second refused. */
  lemma OrderDecides() returns (d: Decoder, exec: ExecValue, c: ClusterValue, swapped: ClusterValue)
    ensures NullsAreNothing(d) && swapped == c.(extensions := swapped.extensions)
    ensures var empty := ExtensionValue(OtherName("foo"), Nil);
            var data := ExtensionValue(OtherName("foo"), Items(ONE_VARIABLE));
            c.extensions == Items([empty, data]) && swapped.extensions == Items([data, empty])
    ensures BuildFor(d, exec, ArgsIgnore, EnvReplace, c).Ok?
    ensures BuildFor(d, exec, ArgsIgnore, EnvReplace, swapped) == Err(DuplicateExtension)
  {
    var empty, data := ExtensionValue(OtherName("foo"), Nil), ExtensionValue(OtherName("foo"), Items(ONE_VARIABLE));
    d, exec, c, swapped := SampleDecoder(), SampleExec(Nil), SampleCluster([empty, data]), SampleCluster([data, empty]);
    BuiltExactly(d, exec, ArgsIgnore, EnvReplace, c);
    FoldSucceeds(d, exec, [data, empty], ArgsIgnore, EnvReplace);
    ConvertMeaning([data, empty]);
    assert [data, empty][0].name == [data, empty][1].name && !IsNull([data, empty][0].raw);
  }

  /** Whatever the extensions are called, a mapping is all it takes to rule panics out. */
  lemma MappingsNeverPanic(d: Decoder, exec: ExecValue, exts: seq<ExtensionValue>, ap: ArgsPolicy, ep: EnvPolicy)
    requires forall x :: x in exts && x.name == AdditionalEnvsKey ==> !d.env(Data(x.raw)).NilMapping?
    ensures !ApplyAll(d, exec, exts, ap, ep).Panic?
  {
    FoldPanics(d, exec, exts, ap, ep);
  }

  // ----- which provider is chosen -----

  /** `v` is the last offer of its name. */
  ghost predicate LastOffer(offers: seq<ProviderValue>, v: ProviderValue) {
    exists i :: 0 <= i < |offers| && offers[i] == v && forall j :: i < j < |offers| ==> offers[j].name != v.name
  }

  lemma {:induction false} LatestMeaning(offers: seq<ProviderValue>, name: string)
    ensures name in Latest(offers) <==> exists v :: v in offers && v.name == name
    ensures name in Latest(offers) ==> Latest(offers)[name].name == name && LastOffer(offers, Latest(offers)[name])
  {
    if offers != [] {
      var n := |offers| - 1;
      var front, last := offers[..n], offers[n];
      LatestMeaning(front, name);
      assert offers == front + [last];
      if last.name == name {
        assert LastOffer(offers, last);
      } else if name in Latest(front) {
        LastOfferAppend(front, last, Latest(front)[name]);
      }
    }
  }

  lemma LastOfferAppend(front: seq<ProviderValue>, last: ProviderValue, v: ProviderValue)
    requires LastOffer(front, v) && last.name != v.name
    ensures LastOffer(front + [last], v)
  {
    var i :| 0 <= i < |front| && front[i] == v && forall j :: i < j < |front| ==> front[j].name != v.name;
    assert (front + [last])[i] == v;
  }

  /** The configuration's order decides: the chosen name is offered and no earlier configured
      name is. Nothing is chosen exactly when no configured name is offered. */
  lemma {:induction false} ChoiceMeaning(names: seq<string>, offers: map<string, ProviderValue>)
    ensures match Choice(names, offers)
            case None => forall i :: 0 <= i < |names| ==> names[i] !in offers
            case Some(v) =>
              exists i :: && 0 <= i < |names| && names[i] in offers && offers[names[i]] == v
                          && forall j :: 0 <= j < i ==> names[j] !in offers
  {
    if names != [] && names[0] !in offers {
      var rest := names[1..];
      ChoiceMeaning(rest, offers);
      assert forall i :: 0 < i < |names| ==> names[i] == rest[i - 1];
      if Choice(rest, offers).Some? {
        var i :| && 0 <= i < |rest| && rest[i] in offers && offers[rest[i]] == Choice(rest, offers).value
                 && forall j :: 0 <= j < i ==> rest[j] !in offers;
        assert names[i + 1] == rest[i];
      }
    }
  }

  /** Permuting access providers with distinct names changes nothing: the index they are looked
      up in, from which everything else is computed, is the same. */
  lemma OfferOrderIrrelevant(a: seq<ProviderValue>, b: seq<ProviderValue>)
    requires multiset(a) == multiset(b) && forall i, j :: 0 <= i < j < |a| ==> a[i].name != a[j].name
    ensures Latest(a) == Latest(b)
  {
    SameElements(a, b);
    forall x, y | x in a && y in a && x.name == y.name ensures x == y {
      var i :| 0 <= i < |a| && a[i] == x;
      var j :| 0 <= j < |a| && a[j] == y;
    }
    forall name
      ensures name in Latest(a) <==> name in Latest(b)
      ensures name in Latest(a) ==> Latest(a)[name] == Latest(b)[name]
    {
      LatestMeaning(a, name);
      LatestMeaning(b, name);
      assert (exists v :: v in a && v.name == name) <==> exists v :: v in b && v.name == name;
      if name in Latest(a) {
        assert Latest(a)[name] in a && Latest(b)[name] in b;
      }
    }
  }

  /** The same offer but for the order of its extensions. */
  ghost predicate Reordered(u: ProviderValue, v: ProviderValue) {
    && v.name == u.name && v.cluster == u.cluster.(extensions := v.cluster.extensions)
    && (u.cluster.extensions.Nil? <==> v.cluster.extensions.Nil?)
    && multiset(Data(v.cluster.extensions)) == multiset(Data(u.cluster.extensions))
  }

  ghost predicate AllReordered(a: seq<ProviderValue>, b: seq<ProviderValue>) {
    |a| == |b| && forall i :: 0 <= i < |a| ==> Reordered(a[i], b[i])
  }

  lemma {:induction false} LatestReordered(a: seq<ProviderValue>, b: seq<ProviderValue>)
    requires AllReordered(a, b)
    ensures Latest(a).Keys == Latest(b).Keys
    ensures forall name :: name in Latest(a) ==> Reordered(Latest(a)[name], Latest(b)[name])
  {
    if a != [] {
      var n := |a| - 1;
      LatestReordered(a[..n], b[..n]);
      assert Reordered(a[n], b[n]);
    }
  }

  lemma {:induction false} ChoiceReordered(names: seq<string>, m: map<string, ProviderValue>,
                                           n: map<string, ProviderValue>)
    requires m.Keys == n.Keys && forall name :: name in m ==> Reordered(m[name], n[name])
    ensures Choice(names, m).None? <==> Choice(names, n).None?
    ensures Choice(names, m).Some? ==> Reordered(Choice(names, m).value, Choice(names, n).value)
  {
    if names != [] {
      assert names[0] in m <==> names[0] in n;
      ChoiceReordered(names[1..], m, n);
    }
  }

  /** The chosen offer is the latest of its name. */
  lemma ChosenIsLatest(names: seq<string>, offers: seq<ProviderValue>)
    requires Choice(names, Latest(offers)).Some?
    ensures var u := Choice(names, Latest(offers)).value; u.name in Latest(offers) && Latest(offers)[u.name] == u
  {
    ChoiceMeaning(names, Latest(offers));
    var u := Choice(names, Latest(offers)).value;
    var i :| 0 <= i < |names| && names[i] in Latest(offers) && Latest(offers)[names[i]] == u;
    LatestMeaning(offers, names[i]);
  }

  /** Offers in which the chosen one has its extensions in another order, and is chosen still. */
  lemma ReorderChosen(names: seq<string>, a: seq<ProviderValue>, v: ProviderValue) returns (b: seq<ProviderValue>)
    requires Choice(names, Latest(a)).Some? && Reordered(Choice(names, Latest(a)).value, v)
    ensures AllReordered(a, b) && Choice(names, Latest(b)) == Some(v)
  {
    var u := Choice(names, Latest(a)).value;
    ChosenIsLatest(names, a);
    LatestMeaning(a, u.name);
    var i :| 0 <= i < |a| && a[i] == u && forall j :: i < j < |a| ==> a[j].name != u.name;
    b := a[i := v];
    LatestReordered(a, b);
    ChoiceReordered(names, Latest(a), Latest(b));
    ChosenIsLatest(names, b);
    LatestMeaning(b, u.name);
    var w := Choice(names, Latest(b)).value;
    var k :| 0 <= k < |b| && b[k] == w && forall j :: k < j < |b| ==> b[j].name != w.name;
    assert k == i;
  }
}
