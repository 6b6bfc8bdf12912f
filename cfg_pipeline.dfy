/** What `bind_entry` computes, stage by stage, as functions of the
    handlers that apply to the client: info binding, generation, the
    filter chain, validation (one best verifier per handler class) and
    encoding; and the pull-target choices of `list_accept_choices`. The
    entry set's methods are proved to compute these. */
module CfgPipeline {

  import opened Wrappers
  import opened Strings
  import opened Seqs
  import opened Specificity
  import opened CfgGrammar
  import opened CfgHandlers

  /** Why binding failed. Rendering, verification and decoding failures
      are raised as plugin execution errors. The others propagate as the
      callee raised them: `best_matching`'s own error (`NoBestGenerator`,
      `NoBestVerifier`), the attribute error of a missing `perms`, and
      whatever a filter's `modify_data` raises (`FilterFailed`). */
  datatype BindError =
    | NoBestGenerator
    | MissingPerms
    | RenderFailed(generator: string)
    | FilterFailed(filter: string)
    | NoBestVerifier(className: string)
    | VerificationFailed(verifier: string)
    | DecodeFailed
    | EncodingSpecError

  // ---------------------------------------------------------------------
  // Info

  /** `bind_info_to_entry`: the default metadata first, then the dict of
      the first info handler only, then `type='file'` on a `Path`. */
  function InfoStage(a: map<string, string>, tag: string, infos: seq<HandlerView>, md: Metadata, c: Collaborators): map<string, string>
  {
    var withDefaults := ApplyInfo(a, c.defaults);
    var withInfo := if infos != [] then ApplyInfo(withDefaults, c.info(infos[0], md)) else withDefaults;
    if tag == "Path" then withInfo["type" := "file"] else withInfo
  }

  /** A `Path` entry always ends up with `type='file'`, and no key starting
      with `__` is ever written. */
  lemma InfoStageKeys(a: map<string, string>, tag: string, infos: seq<HandlerView>, md: Metadata, c: Collaborators, k: string)
    requires StartsWith(k, "__")
    ensures var r := InfoStage(a, tag, infos, md, c);
      && (tag == "Path" ==> "type" in r && r["type"] == "file")
      && (k in r <==> k in a) && (k in a ==> r[k] == a[k])
  {
    assert k[0] == '_';
    ApplyInfoUntouched(a, c.defaults, k);
    if infos != [] {
      ApplyInfoUntouched(ApplyInfo(a, c.defaults), c.info(infos[0], md), k);
    }
  }

  /** The first matching info handler overrides the defaults, whatever the
      other matching info handlers say. */
  lemma InfoStageFirstWins(a: map<string, string>, tag: string, infos: seq<HandlerView>, md: Metadata, c: Collaborators, i: nat)
    requires infos != [] && DistinctKeys(c.info(infos[0], md))
    requires i < |c.info(infos[0], md)| && !StartsWith(c.info(infos[0], md)[i].0, "__")
    requires tag != "Path" || c.info(infos[0], md)[i].0 != "type"
    ensures var (k, v) := c.info(infos[0], md)[i];
      k in InfoStage(a, tag, infos, md, c) && InfoStage(a, tag, infos, md, c)[k] == v
  {
    ApplyInfoWrites(ApplyInfo(a, c.defaults), c.info(infos[0], md), i);
  }

  // ---------------------------------------------------------------------
  // Generation

  /** `perms='inherit'` (in any case) is replaced by the mode of the
      generator's file on disk; any other value is kept. */
  function ResolvePerms(a: map<string, string>, path: string, g: HandlerView, c: Collaborators): map<string, string>
    requires "perms" in a
  {
    if Lower(a["perms"]) == "inherit" then a["perms" := c.statPerms(JoinPath(path, g.name))] else a
  }

  /** `_generate_data`: the best generator, then the permissions, then the
      generator's data. */
  function GenerateStage(gens: seq<HandlerView>, a: map<string, string>, md: Metadata, c: Collaborators, path: string): Result<(map<string, string>, Data), BindError>
    requires BestReturnsMember(c)
  {
    match c.best(md, Specifics(gens))
    case None => Failure(NoBestGenerator)
    case Some(i) =>
      var g := gens[i];
      if "perms" !in a then Failure(MissingPerms)
      else
        var a1 := ResolvePerms(a, path, g, c);
        match c.getData(g, a1, md)
        case None => Failure(RenderFailed(g.name))
        case Some(d) => Success((a1, d))
  }

  /** The attributes `_generate_data` leaves in the entry, whatever its
      outcome: once a generator is picked and `perms` is set, `perms` is
      resolved, before the generator renders. */
  function GenerateAttrib(gens: seq<HandlerView>, a: map<string, string>, md: Metadata, c: Collaborators, path: string): map<string, string>
    requires BestReturnsMember(c)
  {
    match c.best(md, Specifics(gens))
    case None => a
    case Some(i) => if "perms" !in a then a else ResolvePerms(a, path, gens[i], c)
  }

  /** Generation leaves the attributes as they were when it fails before
      the permissions are looked up; when the generator fails to render,
      an `inherit` permission has already been replaced by the file's
      mode; on success the attributes passed on are those left in the
      entry. Only `perms` ever changes. */
  lemma GenerateAttribSpec(gens: seq<HandlerView>, a: map<string, string>, md: Metadata, c: Collaborators, path: string)
    requires BestReturnsMember(c)
    ensures var g := GenerateStage(gens, a, md, c, path);
      var b := c.best(md, Specifics(gens));
      var r := GenerateAttrib(gens, a, md, c, path);
      && (g.Success? ==> g.value.0 == r)
      && (g.Failure? && !g.error.RenderFailed? ==> r == a)
      && (g.Failure? && g.error.RenderFailed? ==> b.Some? && "perms" in a && r == ResolvePerms(a, path, gens[b.value], c))
      && r.Keys == a.Keys
      && (forall k :: k in a && k != "perms" ==> r[k] == a[k])
  {
  }

  /** `_generate_data` is documented as not modifying the entry, yet with
      `perms='inherit'` the entry keeps the file's mode even when the
      generator then fails to render. */
  lemma RenderFailureKeepsResolvedPerms(gens: seq<HandlerView>, a: map<string, string>, md: Metadata, c: Collaborators, path: string)
    requires BestReturnsMember(c)
    requires "perms" in a && Lower(a["perms"]) == "inherit"
    requires GenerateStage(gens, a, md, c, path).Failure? && GenerateStage(gens, a, md, c, path).error.RenderFailed?
    ensures var g := gens[c.best(md, Specifics(gens)).value];
      var mode := c.statPerms(JoinPath(path, g.name));
      GenerateAttrib(gens, a, md, c, path)["perms"] == mode
      && (mode != a["perms"] ==> GenerateAttrib(gens, a, md, c, path) != a)
  {
    var g := gens[c.best(md, Specifics(gens)).value];
    var mode := c.statPerms(JoinPath(path, g.name));
    assert GenerateAttrib(gens, a, md, c, path) == a["perms" := mode];
  }

  /** Generation succeeds exactly when `best_matching` picks a generator,
      `perms` is set and that generator renders; it then returns that
      generator's data, and changes no attribute but `perms`, and that one
      only when it was `inherit`. */
  lemma GenerateStageResult(gens: seq<HandlerView>, a: map<string, string>, md: Metadata, c: Collaborators, path: string)
    requires BestReturnsMember(c)
    ensures var r := GenerateStage(gens, a, md, c, path);
      var b := c.best(md, Specifics(gens));
      && (r.Success? <==> b.Some? && "perms" in a && c.getData(gens[b.value], ResolvePerms(a, path, gens[b.value], c), md).Some?)
      && (r.Success? ==>
           && r.value.1 == c.getData(gens[b.value], r.value.0, md).value
           && r.value.0.Keys == a.Keys
           && (forall k :: k in a && k != "perms" ==> r.value.0[k] == a[k])
           && (r.value.0["perms"] != a["perms"] ==> Lower(a["perms"]) == "inherit"))
  {
  }

  // ---------------------------------------------------------------------
  // Filters

  /** The filter chain: each filter's `modify_data` applied to the previous
      output, in order. */
  function FilterStage(fs: seq<HandlerView>, a: map<string, string>, md: Metadata, d: Data, c: Collaborators): Result<Data, BindError>
  {
    if fs == [] then Success(d)
    else match c.modifyData(fs[0], a, md, d)
      case None => Failure(FilterFailed(fs[0].name))
      case Some(d1) => FilterStage(fs[1..], a, md, d1, c)
  }

  /** Filtering by `f1 + f2` is filtering by `f1` and then by `f2`. */
  lemma {:induction false} FilterStageConcat(f1: seq<HandlerView>, f2: seq<HandlerView>, a: map<string, string>, md: Metadata, d: Data, c: Collaborators)
    ensures FilterStage(f1 + f2, a, md, d, c) ==
      match FilterStage(f1, a, md, d, c)
      case Success(d1) => FilterStage(f2, a, md, d1, c)
      case Failure(e) => Failure(e)
  {
    if f1 != [] {
      assert (f1 + f2)[0] == f1[0] && (f1 + f2)[1..] == f1[1..] + f2;
      match c.modifyData(f1[0], a, md, d)
      case None =>
      case Some(d1) => FilterStageConcat(f1[1..], f2, a, md, d1, c);
    } else {
      assert f1 + f2 == f2;
    }
  }

  // ---------------------------------------------------------------------
  // Validation

  function OfClass(name: string): HandlerView -> bool {
    (v: HandlerView) => v.cls.name == name
  }

  /** One step of building `verifiers_by_class`. */
  function GroupStep(g: (seq<string>, map<string, seq<HandlerView>>), v: HandlerView): (seq<string>, map<string, seq<HandlerView>>) {
    var (keys, m) := g;
    var n := v.cls.name;
    if n in m then (keys, m[n := m[n] + [v]]) else (keys + [n], m[n := [v]])
  }

  /** `verifiers_by_class`, with its keys in insertion order. */
  function GroupByClass(vs: seq<HandlerView>): (seq<string>, map<string, seq<HandlerView>>)
  {
    if vs == [] then ([], map[]) else GroupStep(GroupByClass(vs[..|vs| - 1]), vs[|vs| - 1])
  }

  ghost predicate GroupsWellFormed(vs: seq<HandlerView>, keys: seq<string>, m: map<string, seq<HandlerView>>) {
    && (forall i, j :: 0 <= i < j < |keys| ==> keys[i] != keys[j])
    && (forall k :: k in keys <==> k in m)
    && (forall k :: k in m ==> m[k] == Filter(vs, OfClass(k)) && m[k] != [])
    && (forall i :: 0 <= i < |vs| ==> vs[i].cls.name in m)
  }

  lemma FilterSnoc(init: seq<HandlerView>, v: HandlerView, k: string)
    ensures Filter(init + [v], OfClass(k)) == Filter(init, OfClass(k)) + (if v.cls.name == k then [v] else [])
  {
    FilterConcat(init, [v], OfClass(k));
  }

  /** Adding one verifier keeps the grouping well formed. */
  lemma GroupStepWellFormed(init: seq<HandlerView>, v: HandlerView, keys: seq<string>, m: map<string, seq<HandlerView>>)
    requires GroupsWellFormed(init, keys, m)
    ensures GroupsWellFormed(init + [v], GroupStep((keys, m), v).0, GroupStep((keys, m), v).1)
  {
    var vs := init + [v];
    var (keys1, m1) := GroupStep((keys, m), v);
    var n := v.cls.name;
    forall k | k in m1
      ensures m1[k] == Filter(vs, OfClass(k)) && m1[k] != []
    {
      FilterSnoc(init, v, k);
      FilterEmptyIff(init, OfClass(k));
    }
    forall i | 0 <= i < |vs|
      ensures vs[i].cls.name in m1
    {
      if i < |init| {
        assert vs[i] == init[i];
      }
    }
  }

  /** The grouping has one key per class name, each once, and the group of
      a class is exactly its verifiers, in their original order. */
  lemma {:induction false} GroupByClassWellFormed(vs: seq<HandlerView>)
    ensures GroupsWellFormed(vs, GroupByClass(vs).0, GroupByClass(vs).1)
  {
    if vs != [] {
      var init := vs[..|vs| - 1];
      GroupByClassWellFormed(init);
      assert vs == init + [vs[|vs| - 1]];
      GroupStepWellFormed(init, vs[|vs| - 1], GroupByClass(init).0, GroupByClass(init).1);
    }
  }

  /** Every key of the grouping has a group. */
  lemma GroupByClassKeys(vs: seq<HandlerView>)
    ensures forall k :: k in GroupByClass(vs).0 ==> k in GroupByClass(vs).1
  {
    GroupByClassWellFormed(vs);
  }

  /** Every group's best verifier must pass, in key order; the first
      failure is reported. */
  function CheckGroups(keys: seq<string>, m: map<string, seq<HandlerView>>, a: map<string, string>, md: Metadata, d: Data, c: Collaborators): Result<(), BindError>
    requires BestReturnsMember(c)
    requires forall k :: k in keys ==> k in m
  {
    if keys == [] then Success(())
    else
      var grp := m[keys[0]];
      match c.best(md, Specifics(grp))
      case None => Failure(NoBestVerifier(keys[0]))
      case Some(i) =>
        if c.verifyEntry(grp[i], a, md, d) then CheckGroups(keys[1..], m, a, md, d, c)
        else Failure(VerificationFailed(grp[i].name))
  }

  /** `_validate_data`. */
  function ValidateStage(vs: seq<HandlerView>, a: map<string, string>, md: Metadata, d: Data, c: Collaborators): Result<(), BindError>
    requires BestReturnsMember(c)
  {
    GroupByClassWellFormed(vs);
    var (keys, m) := GroupByClass(vs);
    CheckGroups(keys, m, a, md, d, c)
  }

  ghost predicate GroupPasses(grp: seq<HandlerView>, a: map<string, string>, md: Metadata, d: Data, c: Collaborators)
    requires BestReturnsMember(c)
  {
    c.best(md, Specifics(grp)).Some? && c.verifyEntry(grp[c.best(md, Specifics(grp)).value], a, md, d)
  }

  lemma {:induction false} CheckGroupsIff(keys: seq<string>, m: map<string, seq<HandlerView>>, a: map<string, string>, md: Metadata, d: Data, c: Collaborators)
    requires BestReturnsMember(c)
    requires forall k :: k in keys ==> k in m
    ensures CheckGroups(keys, m, a, md, d, c).Success? <==>
      forall i :: 0 <= i < |keys| ==> GroupPasses(m[keys[i]], a, md, d, c)
  {
    if keys != [] {
      CheckGroupsIff(keys[1..], m, a, md, d, c);
      if GroupPasses(m[keys[0]], a, md, d, c) {
        forall i | 0 <= i < |keys|
          ensures i > 0 ==> keys[i] == keys[1..][i - 1]
        {
        }
      }
    }
  }

  /** Validation succeeds exactly when, for every handler class among the
      verifiers, the best of that class's verifiers accepts the data. */
  lemma ValidateStageIff(vs: seq<HandlerView>, a: map<string, string>, md: Metadata, d: Data, c: Collaborators)
    requires BestReturnsMember(c)
    ensures ValidateStage(vs, a, md, d, c).Success? <==>
      forall i :: 0 <= i < |vs| ==> GroupPasses(Filter(vs, OfClass(vs[i].cls.name)), a, md, d, c)
  {
    GroupByClassWellFormed(vs);
    var (keys, m) := GroupByClass(vs);
    CheckGroupsIff(keys, m, a, md, d, c);
    if ValidateStage(vs, a, md, d, c).Success? {
      forall i | 0 <= i < |vs|
        ensures GroupPasses(Filter(vs, OfClass(vs[i].cls.name)), a, md, d, c)
      {
        ValidateGroupOfKey(vs, keys, m, a, md, d, c, vs[i].cls.name);
      }
    } else {
      var j :| 0 <= j < |keys| && !GroupPasses(m[keys[j]], a, md, d, c);
      ValidateFailingKey(vs, keys, m, a, md, d, c, j);
    }
  }

  lemma ValidateGroupOfKey(vs: seq<HandlerView>, keys: seq<string>, m: map<string, seq<HandlerView>>,
                           a: map<string, string>, md: Metadata, d: Data, c: Collaborators, k: string)
    requires BestReturnsMember(c)
    requires GroupsWellFormed(vs, keys, m) && k in m
    requires forall i :: 0 <= i < |keys| ==> GroupPasses(m[keys[i]], a, md, d, c)
    ensures GroupPasses(Filter(vs, OfClass(k)), a, md, d, c)
  {
    var j :| 0 <= j < |keys| && keys[j] == k;
  }

  lemma ValidateFailingKey(vs: seq<HandlerView>, keys: seq<string>, m: map<string, seq<HandlerView>>,
                           a: map<string, string>, md: Metadata, d: Data, c: Collaborators, j: nat)
    requires BestReturnsMember(c)
    requires GroupsWellFormed(vs, keys, m) && j < |keys| && !GroupPasses(m[keys[j]], a, md, d, c)
    ensures exists i :: 0 <= i < |vs| && !GroupPasses(Filter(vs, OfClass(vs[i].cls.name)), a, md, d, c)
  {
    var grp := m[keys[j]];
    assert grp == Filter(vs, OfClass(keys[j])) && grp != [];
    assert grp[0] in vs && grp[0].cls.name == keys[j];
    var i :| 0 <= i < |vs| && vs[i] == grp[0];
    assert !GroupPasses(Filter(vs, OfClass(vs[i].cls.name)), a, md, d, c);
  }

  // ---------------------------------------------------------------------
  // Encoding and storing

  /** Base64 when the entry asks for it; otherwise byte data is decoded in
      the entry set's encoding and text is kept as it is. */
  function EncodeStage(d: Data, a: map<string, string>, encoding: string, c: Collaborators): Result<string, BindError>
  {
    if "encoding" in a && a["encoding"] == "base64" then Success(c.b64(d))
    else match d
      case Text(t) => Success(t)
      case Bytes(b) =>
        match c.decode(b, encoding)
        case Success(t) => Success(t)
        case Failure(UnicodeDecodeError) => Failure(DecodeFailed)
        case Failure(ValueError) => Failure(EncodingSpecError)
  }

  /** Non-empty data becomes the entry's text; empty data sets
      `empty='true'` and leaves the text alone. */
  function StoreStage(a: map<string, string>, text: Option<string>, s: string): (map<string, string>, Option<string>)
  {
    if s != "" then (a, Some(s)) else (a["empty" := "true"], text)
  }

  /** What `bind_entry` does with the generator's output: filter,
      validate when enabled, encode and store. */
  function FinishStage(filters: seq<HandlerView>, verifiers: seq<HandlerView>, a: map<string, string>, text: Option<string>,
                       d: Data, md: Metadata, c: Collaborators, encoding: string, validate: bool): Result<(map<string, string>, Option<string>), BindError>
    requires BestReturnsMember(c)
  {
    match FilterStage(filters, a, md, d, c)
    case Failure(e) => Failure(e)
    case Success(d2) =>
      var v := if validate then ValidateStage(verifiers, a, md, d2, c) else Success(());
      if v.Failure? then Failure(v.error)
      else match EncodeStage(d2, a, encoding, c)
        case Failure(e) => Failure(e)
        case Success(s) => Success(StoreStage(a, text, s))
  }

  /** Everything `bind_entry` does after info binding. */
  function BindStage(gens: seq<HandlerView>, filters: seq<HandlerView>, verifiers: seq<HandlerView>,
                     a: map<string, string>, text: Option<string>, md: Metadata, c: Collaborators,
                     path: string, encoding: string, validate: bool): Result<(map<string, string>, Option<string>), BindError>
    requires BestReturnsMember(c)
  {
    match GenerateStage(gens, a, md, c, path)
    case Failure(e) => Failure(e)
    case Success((a1, d)) => FinishStage(filters, verifiers, a1, text, d, md, c, encoding, validate)
  }

  /** A successful bind stores the encoded data of the filtered generator
      output: as the text when non-empty (attributes untouched), otherwise
      as `empty='true'` with the text as it was; with `encoding='base64'`
      what is stored is the base64 of that data. With validation enabled,
      success also means every class's best verifier accepted the data;
      with it disabled, the verifiers are not consulted. */
  lemma BindStageResult(gens: seq<HandlerView>, filters: seq<HandlerView>, verifiers: seq<HandlerView>,
                        a: map<string, string>, text: Option<string>, md: Metadata, c: Collaborators,
                        path: string, encoding: string, validate: bool)
    requires BestReturnsMember(c)
    requires BindStage(gens, filters, verifiers, a, text, md, c, path, encoding, validate).Success?
    ensures var g := GenerateStage(gens, a, md, c, path);
      g.Success? && FilterStage(filters, g.value.0, md, g.value.1, c).Success? &&
      var d := FilterStage(filters, g.value.0, md, g.value.1, c).value;
      var s := EncodeStage(d, g.value.0, encoding, c);
      var (a2, t2) := BindStage(gens, filters, verifiers, a, text, md, c, path, encoding, validate).value;
      && s.Success?
      && (validate ==> ValidateStage(verifiers, g.value.0, md, d, c).Success?)
      && ("encoding" in a && a["encoding"] == "base64" ==> s.value == c.b64(d))
      && (s.value != "" ==> a2 == g.value.0 && t2 == Some(s.value))
      && (s.value == "" ==> a2 == g.value.0["empty" := "true"] && t2 == text)
  {
    GenerateStageResult(gens, a, md, c, path);
  }

  /** With validation enabled, a verification failure (after generation
      and filtering succeeded) is what binding reports. */
  lemma BindStageVerificationError(gens: seq<HandlerView>, filters: seq<HandlerView>, verifiers: seq<HandlerView>,
                                   a: map<string, string>, text: Option<string>, md: Metadata, c: Collaborators,
                                   path: string, encoding: string)
    requires BestReturnsMember(c)
    requires GenerateStage(gens, a, md, c, path).Success?
    requires var g := GenerateStage(gens, a, md, c, path).value;
      FilterStage(filters, g.0, md, g.1, c).Success?
    ensures var g := GenerateStage(gens, a, md, c, path).value;
      var d := FilterStage(filters, g.0, md, g.1, c).value;
      ValidateStage(verifiers, g.0, md, d, c).Failure? ==>
        BindStage(gens, filters, verifiers, a, text, md, c, path, encoding, true) == Failure(ValidateStage(verifiers, g.0, md, d, c).error)
  {
  }

  // ---------------------------------------------------------------------
  // Pull targets

  /** Why no pull locations are listed: no generator matches the client,
      a generator has no specificity, or (in the plugin) no entry set has
      the entry's name. */
  datatype AcceptError = NoBaseFile | NotSpecific | UnknownEntry

  function IsRole(role: Role): HandlerView -> bool {
    (v: HandlerView) => v.cls.role == role
  }

  function MatchesClient(md: Metadata): HandlerView -> bool {
    (v: HandlerView) => v.specific.Some? && Matches(v.specific.value, md)
  }

  /** `list_accept_choices` over the entry set's handlers in order: a
      generator without a specificity fails the comprehension; with no
      generator matching the client there is no base file; otherwise the
      best generator's specificity (when `best_matching` does not raise),
      followed by the client's host unless that specificity already names
      a host. */
  function AcceptChoices(all: seq<HandlerView>, md: Metadata, c: Collaborators): Result<seq<Specificity>, AcceptError>
    requires BestReturnsMember(c)
  {
    var gens := Filter(all, IsRole(CfgGenerator));
    if exists i :: 0 <= i < |gens| && gens[i].specific.None? then Failure(NotSpecific)
    else
      var matching := Filter(gens, MatchesClient(md));
      if matching == [] then Failure(NoBaseFile)
      else
        var rv := match c.best(md, Specifics(matching))
          case Some(i) => [matching[i].specific.value]
          case None => [];
        Success(if rv == [] || !(rv[0].Host? && rv[0].hostname != "") then rv + [Host(md.hostname)] else rv)
  }

  /** The choices are one or two specificities and the last is host
      specific: the best generator's own host, or the client's. The first
      is the specificity of the generator `best_matching` picks among those
      matching the client, and only the client's host when it raises. There is
      no base file exactly when no specific generator matches the client. */
  lemma AcceptChoicesShape(all: seq<HandlerView>, md: Metadata, c: Collaborators)
    requires BestReturnsMember(c)
    ensures var r := AcceptChoices(all, md, c);
      && (r.Success? ==>
           && 1 <= |r.value| <= 2
           && r.value[|r.value| - 1].Host?
           && (|r.value| == 2 ==> r.value[1] == Host(md.hostname) && !(r.value[0].Host? && r.value[0].hostname != ""))
           && (r.value[|r.value| - 1] != Host(md.hostname) ==> |r.value| == 1 && r.value[0].hostname != "")
           && var matching := Filter(Filter(all, IsRole(CfgGenerator)), MatchesClient(md));
              match c.best(md, Specifics(matching))
              case Some(i) => r.value[0] == matching[i].specific.value
              case None => r.value == [Host(md.hostname)])
      && (r == Failure(NoBaseFile) <==>
           && (forall v :: v in all && v.cls.role == CfgGenerator ==> v.specific.Some?)
           && (forall v :: v in all && v.cls.role == CfgGenerator ==> !Matches(v.specific.value, md)))
  {
    var gens := Filter(all, IsRole(CfgGenerator));
    if forall i :: 0 <= i < |gens| ==> gens[i].specific.Some? {
      var matching := Filter(gens, MatchesClient(md));
      if matching != [] {
        assert matching[0] in gens;
      }
    }
  }
}
