/** A Cfg entry set: the handler objects of one directory of the Cfg
    repository, keyed by filename, kept up to date by file-monitor events
    and used to bind the entry that directory describes; and the Cfg
    plugin's index of entry sets. */
module CfgEntrySets {

  import opened Wrappers
  import opened Strings
  import opened Seqs
  import opened Specificity
  import opened FileMonitor
  import opened CfgGrammar
  import opened CfgHandlers
  import opened CfgPipeline

  /** What `handle_event` did with an event. */
  datatype Dispatch =
    | NotCreate            // unknown file, and not an exists/created/changed event
    | Claimed(index: nat)  // the handler class at `index` claimed the file
    | Skipped(index: nat)  // the handler class at `index` ignores the file
    | Reread               // a known file changed
    | Removed              // a known file was deleted
    | Unprocessed          // "could not process event": an error is logged

  /** The events that may create an entry. */
  predicate CreateLike(code: Code) {
    code == Exists || code == Created || code == Changed
  }

  datatype Decision = Claim(index: nat) | Ignore(index: nat) | NoDecision

  /** The first handler class, from `i` on, that claims or ignores the
      file. */
  function DecideFrom(hs: seq<HandlerClass>, filename: string, path: string, i: nat): Decision
    decreases |hs| - i
  {
    if i >= |hs| then NoDecision
    else if Handles(hs[i], filename, path) then Claim(i)
    else if Ignores(hs[i], filename) then Ignore(i)
    else DecideFrom(hs, filename, path, i + 1)
  }

  predicate Passes(cls: HandlerClass, filename: string, path: string) {
    !Handles(cls, filename, path) && !Ignores(cls, filename)
  }

  /** The first class that claims or ignores decides: a claim is by a class
      whose grammar accepts the filename, an ignore by one that does not
      but ignores it, every class before it does neither, and there is no
      decision exactly when no class claims or ignores. */
  lemma {:induction false} DecideFromSpec(hs: seq<HandlerClass>, filename: string, path: string, i: nat)
    ensures match DecideFrom(hs, filename, path, i)
      case Claim(j) => i <= j < |hs| && Handles(hs[j], filename, path)
        && forall l :: i <= l < j ==> Passes(hs[l], filename, path)
      case Ignore(j) => i <= j < |hs| && !Handles(hs[j], filename, path) && Ignores(hs[j], filename)
        && forall l :: i <= l < j ==> Passes(hs[l], filename, path)
      case NoDecision => forall l :: i <= l < |hs| ==> Passes(hs[l], filename, path)
    decreases |hs| - i
  {
    if i < |hs| && Passes(hs[i], filename, path) {
      DecideFromSpec(hs, filename, path, i + 1);
    }
  }

  /** A class that claims the file decides it, whatever the classes after
      it would do: a later class that ignores the file does not stop the
      earlier claim, although `__ignore__` is documented as ignoring a file
      that any handler class ignores. */
  lemma {:induction false} ClaimBeforeIgnore(hs: seq<HandlerClass>, filename: string, path: string, i: nat, j: nat)
    requires i <= j < |hs| && Handles(hs[j], filename, path)
    requires forall l :: i <= l < j ==> Passes(hs[l], filename, path)
    ensures DecideFrom(hs, filename, path, i) == Claim(j)
    decreases j - i
  {
    if i < j {
      ClaimBeforeIgnore(hs, filename, path, i + 1, j);
    }
  }

  /** What `entry_init` creates for a new file: `Some(s)` is a handler
      with specificity `s` (absent for a class that is not specific),
      `None` is nothing, for a specific class whose regex over the
      directory's basename does not match the filename. */
  function InitSpecificity(cls: HandlerClass, path: string, filename: string): Option<Option<Specificity>>
  {
    if !cls.specific then Some(None)
    else match SpecificityFromFilename(cls, PathBasename(path), filename)
      case None => None
      case Some(s) => Some(Some(s))
  }

  class CfgEntrySet {
    const path: string
    const encoding: string
    const handlers: seq<HandlerClass>
    var entries: map<string, CfgHandler>
    /** The keys of `entries`, in insertion order. */
    var order: seq<string>

    ghost predicate Valid()
      reads this
    {
      && Distinct(order)
      && (forall k :: k in order <==> k in entries)
      && (forall k :: k in entries ==> (entries[k].specific.Some? <==> entries[k].cls.specific))
    }

    constructor (path: string, encoding: string, handlers: seq<HandlerClass>)
      ensures Valid()
      ensures this.path == path && this.encoding == encoding && this.handlers == handlers
      ensures entries == map[] && order == []
    {
      this.path := path;
      this.encoding := encoding;
      this.handlers := handlers;
      entries := map[];
      order := [];
    }

    /** `self.entries.values()`. */
    function Handlers(): seq<CfgHandler>
      reads this
    {
      ValuesIn(order, entries)
    }

    /** The handlers of a role that apply to a client, in entry order. */
    function Selected(md: Metadata, role: Role): seq<CfgHandler>
      reads this
    {
      Filter(Handlers(), AppliesTo(md, role))
    }

    /** Snapshots of the selected handlers, as the stages of binding see
        them. */
    function RoleViews(md: Metadata, role: Role): seq<HandlerView>
      reads this, entries.Values
    {
      ValuesInSpec(order, entries);
      Views(Selected(md, role))
    }

    /** The selected handlers are those of the role that are not specific
        or whose specificity matches the client: an entry is selected
        exactly when it applies, and nothing else is. */
    lemma SelectedMembers(md: Metadata, role: Role)
      requires Valid()
      ensures forall i :: 0 <= i < |order| ==>
        (entries[order[i]] in Selected(md, role) <==> Applies(entries[order[i]], md, role))
      ensures forall h :: h in Selected(md, role) ==> Applies(h, md, role) && h in entries.Values
    {
      var hs := Handlers();
      ValuesInSpec(order, entries);
      forall i | 0 <= i < |order|
        ensures Applies(entries[order[i]], md, role) ==> entries[order[i]] in Selected(md, role)
      {
        assert hs[i] == entries[order[i]];
      }
    }

    /** The selected handlers keep the entry order. */
    lemma SelectedInOrder(md: Metadata, role: Role)
      ensures IsSubsequence(Selected(md, role), Handlers())
    {
      FilterIsSubsequence(Handlers(), AppliesTo(md, role));
    }

    /** No handler is selected exactly when no entry applies. */
    lemma SelectedEmpty(md: Metadata, role: Role)
      requires Valid()
      ensures Selected(md, role) == [] <==> forall k :: k in entries ==> !Applies(entries[k], md, role)
    {
      var hs := Handlers();
      ValuesInSpec(order, entries);
      FilterEmptyIff(hs, AppliesTo(md, role));
      if forall k :: k in entries ==> !Applies(entries[k], md, role) {
        forall i | 0 <= i < |hs|
          ensures !AppliesTo(md, role)(hs[i])
        {
          assert hs[i] == entries[order[i]];
        }
      } else {
        var k :| k in entries && Applies(entries[k], md, role);
        var i :| 0 <= i < |order| && order[i] == k;
        assert hs[i] == entries[k];
      }
    }

    /** `get_handlers(metadata, handler_type)`. */
    method GetHandlers(md: Metadata, role: Role) returns (rv: seq<CfgHandler>)
      requires Valid()
      ensures rv == Selected(md, role) && Views(rv) == RoleViews(md, role)
    {
      rv := [];
      var i := 0;
      while i < |order|
        invariant 0 <= i <= |order|
        invariant rv == Filter(ValuesIn(order[..i], entries), AppliesTo(md, role))
      {
        assert order[..i + 1][..i] == order[..i];
        assert order[i] in entries;
        FilterConcat(ValuesIn(order[..i], entries), [entries[order[i]]], AppliesTo(md, role));
        var ent := entries[order[i]];
        if Applies(ent, md, role) {
          rv := rv + [ent];
        }
        i := i + 1;
      }
      assert order[..|order|] == order;
    }

    /** `entry_init(event, hdlr)`: a file already known is re-read and
        keeps its handler object; a new file gets a new handler of the
        class under its name, unless the class is specific and the name
        carries no readable specificity. */
    method EntryInit(filename: string, cls: HandlerClass, contents: Data) returns (added: bool)
      requires Valid()
      modifies this, (if filename in entries then {entries[filename]} else {})
      ensures Valid()
      ensures filename in old(entries) ==>
        && !added && entries == old(entries) && order == old(order) && entries[filename].data == contents
      ensures filename !in old(entries) && InitSpecificity(cls, path, filename).None? ==>
        && !added && entries == old(entries) && order == old(order)
      ensures filename !in old(entries) && InitSpecificity(cls, path, filename).Some? ==>
        && added && filename in entries
        && fresh(entries[filename])
        && entries == old(entries)[filename := entries[filename]]
        && order == old(order) + [filename]
        && entries[filename].cls == cls
        && entries[filename].name == JoinPath(path, filename)
        && entries[filename].specific == InitSpecificity(cls, path, filename).value
        && entries[filename].data == contents
    {
      if filename in entries {
        entries[filename].HandleEvent(contents);
        return false;
      }
      var spec := InitSpecificity(cls, path, filename);
      if spec.None? {
        return false;
      }
      var h := new CfgHandler(cls, JoinPath(path, filename), spec.value, contents);
      entries := entries[filename := h];
      order := order + [filename];
      added := true;
    }

    /** `handle_event(event)`, with `contents` what re-reading the file
        gives. */
    method HandleEvent(event: Event, contents: Data) returns (outcome: Dispatch)
      requires Valid()
      modifies this, (if event.filename in entries then {entries[event.filename]} else {})
      ensures Valid()
      // a known file
      ensures event.filename in old(entries) && event.code == Changed ==>
        && outcome == Reread && entries == old(entries) && order == old(order)
        && entries[event.filename].data == contents
      ensures event.filename in old(entries) && event.code == Deleted ==>
        && outcome == Removed && entries == old(entries) - {event.filename}
        && order == RemoveFirst(old(order), event.filename)
      ensures event.filename in old(entries) && event.code != Changed && event.code != Deleted ==>
        && outcome == Unprocessed && entries == old(entries) && order == old(order)
      // an unknown file
      ensures event.filename !in old(entries) && !CreateLike(event.code) ==>
        && outcome == NotCreate && entries == old(entries) && order == old(order)
      ensures event.filename !in old(entries) && CreateLike(event.code) ==>
        match DecideFrom(handlers, event.filename, path, 0)
        case NoDecision => outcome == Unprocessed && entries == old(entries) && order == old(order)
        case Ignore(i) => outcome == Skipped(i) && entries == old(entries) && order == old(order)
        case Claim(i) =>
          && outcome == Claimed(i)
          && i < |handlers|
          && (InitSpecificity(handlers[i], path, event.filename).None? ==> entries == old(entries) && order == old(order))
          && (InitSpecificity(handlers[i], path, event.filename).Some? ==>
               && event.filename in entries && fresh(entries[event.filename])
               && entries == old(entries)[event.filename := entries[event.filename]]
               && order == old(order) + [event.filename]
               && entries[event.filename].cls == handlers[i]
               && entries[event.filename].specific == InitSpecificity(handlers[i], path, event.filename).value
               && entries[event.filename].data == contents)
    {
      var f := event.filename;
      if f !in entries {
        if !CreateLike(event.code) {
          return NotCreate;
        }
        var i := 0;
        while i < |handlers|
          invariant 0 <= i <= |handlers|
          invariant DecideFrom(handlers, f, path, 0) == DecideFrom(handlers, f, path, i)
        {
          if Handles(handlers[i], f, path) {
            var _ := EntryInit(f, handlers[i], contents);
            return Claimed(i);
          } else if Ignores(handlers[i], f) {
            return Skipped(i);
          }
          i := i + 1;
        }
        return Unprocessed;
      } else if event.code == Changed {
        entries[f].HandleEvent(contents);
        return Reread;
      } else if event.code == Deleted {
        RemoveFirstDistinct(order, f);
        entries := entries - {f};
        order := RemoveFirst(order, f);
        return Removed;
      }
      return Unprocessed;
    }

    /** `bind_info_to_entry(entry, metadata)`. */
    method BindInfoToEntry(entry: Entry, md: Metadata, c: Collaborators)
      requires Valid()
      modifies entry
      ensures entry.attrib == InfoStage(old(entry.attrib), entry.tag, old(RoleViews(md, CfgInfo)), md, c)
      ensures entry.text == old(entry.text)
    {
      var infos := GetHandlers(md, CfgInfo);
      var vs := Views(infos);
      SetInfo(entry, c.defaults);
      if |vs| > 0 {
        SetInfo(entry, c.info(vs[0], md));
      }
      if entry.tag == "Path" {
        entry.attrib := entry.attrib["type" := "file"];
      }
    }

    /** `_generate_data(entry, metadata)`. */
    method GenerateData(entry: Entry, md: Metadata, c: Collaborators) returns (r: Result<Data, BindError>)
      requires Valid() && BestReturnsMember(c)
      modifies entry
      ensures var g := GenerateStage(old(RoleViews(md, CfgGenerator)), old(entry.attrib), md, c, path);
        && (r.Success? <==> g.Success?)
        && (g.Success? ==> r.value == g.value.1 && entry.attrib == g.value.0)
        && (g.Failure? ==> r.error == g.error)
      ensures entry.attrib == GenerateAttrib(old(RoleViews(md, CfgGenerator)), old(entry.attrib), md, c, path)
      ensures entry.text == old(entry.text)
    {
      var gens := GetHandlers(md, CfgGenerator);
      var vs := Views(gens);
      var b := c.best(md, Specifics(vs));
      if b.None? {
        return Failure(NoBestGenerator);
      }
      var g := vs[b.value];
      if "perms" !in entry.attrib {
        return Failure(MissingPerms);
      }
      if Lower(entry.attrib["perms"]) == "inherit" {
        entry.attrib := entry.attrib["perms" := c.statPerms(JoinPath(path, g.name))];
      }
      var d := c.getData(g, entry.attrib, md);
      if d.None? {
        return Failure(RenderFailed(g.name));
      }
      return Success(d.value);
    }

    /** The filter loop of `bind_entry`. */
    method FilterData(a: map<string, string>, md: Metadata, d: Data, c: Collaborators) returns (r: Result<Data, BindError>)
      requires Valid()
      ensures r == FilterStage(RoleViews(md, CfgFilter), a, md, d, c)
    {
      var filters := GetHandlers(md, CfgFilter);
      var vs := Views(filters);
      var data := d;
      var i := 0;
      while i < |vs|
        invariant 0 <= i <= |vs|
        invariant FilterStage(vs, a, md, d, c) == FilterStage(vs[i..], a, md, data, c)
      {
        var out := c.modifyData(vs[i], a, md, data);
        if out.None? {
          return Failure(FilterFailed(vs[i].name));
        }
        assert vs[i..][1..] == vs[i + 1..];
        data := out.value;
        i := i + 1;
      }
      return Success(data);
    }

    /** `_validate_data(entry, metadata, data)`. */
    method ValidateData(a: map<string, string>, md: Metadata, d: Data, c: Collaborators) returns (r: Result<(), BindError>)
      requires Valid() && BestReturnsMember(c)
      ensures r == ValidateStage(RoleViews(md, CfgVerifier), a, md, d, c)
    {
      var verifiers := GetHandlers(md, CfgVerifier);
      var vs := Views(verifiers);
      var keys, byClass := GroupVerifiers(vs);
      GroupByClassKeys(vs);
      r := CheckVerifierGroups(keys, byClass, a, md, d, c);
    }

    /** The part of `bind_entry` after generation: the filter chain,
        validation when enabled, encoding and storing. */
    method FinishBind(entry: Entry, md: Metadata, d: Data, c: Collaborators, validate: bool) returns (r: Result<(), BindError>)
      requires Valid() && BestReturnsMember(c)
      modifies entry
      ensures var out := FinishStage(old(RoleViews(md, CfgFilter)), old(RoleViews(md, CfgVerifier)),
                                     old(entry.attrib), old(entry.text), d, md, c, encoding, validate);
        && (r.Success? <==> out.Success?)
        && (out.Success? ==> entry.attrib == out.value.0 && entry.text == out.value.1)
        && (out.Failure? ==> r.error == out.error && entry.attrib == old(entry.attrib) && entry.text == old(entry.text))
    {
      ghost var filters, verifiers := RoleViews(md, CfgFilter), RoleViews(md, CfgVerifier);
      var data := FilterData(entry.attrib, md, d, c);
      assert data == FilterStage(filters, entry.attrib, md, d, c);
      if data.Failure? {
        return Failure(data.error);
      }
      if validate {
        var v := ValidateData(entry.attrib, md, data.value, c);
        assert v == ValidateStage(verifiers, entry.attrib, md, data.value, c);
        if v.Failure? {
          return Failure(v.error);
        }
      }
      var s := EncodeStage(data.value, entry.attrib, encoding, c);
      if s.Failure? {
        return Failure(s.error);
      }
      if s.value != "" {
        entry.text := Some(s.value);
      } else {
        entry.attrib := entry.attrib["empty" := "true"];
      }
      return Success(());
    }

    /** `bind_entry(entry, metadata)`, with `validate` the configured
        validation switch. */
    method BindEntry(entry: Entry, md: Metadata, c: Collaborators, validate: bool) returns (r: Result<(), BindError>)
      requires Valid() && BestReturnsMember(c)
      modifies entry
      ensures var a1 := InfoStage(old(entry.attrib), entry.tag, old(RoleViews(md, CfgInfo)), md, c);
        var out := BindStage(old(RoleViews(md, CfgGenerator)), old(RoleViews(md, CfgFilter)),
                             old(RoleViews(md, CfgVerifier)), a1, old(entry.text), md, c, path, encoding, validate);
        && (r.Success? <==> out.Success?)
        && (out.Success? ==> entry.attrib == out.value.0 && entry.text == out.value.1)
        && (out.Failure? ==> r.error == out.error && entry.text == old(entry.text)
                             && entry.attrib == GenerateAttrib(old(RoleViews(md, CfgGenerator)), a1, md, c, path))
    {
      ghost var gens, filters, verifiers := RoleViews(md, CfgGenerator), RoleViews(md, CfgFilter), RoleViews(md, CfgVerifier);
      BindInfoToEntry(entry, md, c);
      ghost var a1 := entry.attrib;
      assert Selected(md, CfgGenerator) == old(Selected(md, CfgGenerator));
      assert RoleViews(md, CfgGenerator) == gens;
      var g := GenerateData(entry, md, c);
      ghost var gs := GenerateStage(gens, a1, md, c, path);
      assert g.Success? <==> gs.Success?;
      if g.Failure? {
        assert g.error == gs.error;
        return Failure(g.error);
      }
      assert gs.value == (entry.attrib, g.value);
      assert Selected(md, CfgFilter) == old(Selected(md, CfgFilter)) && Selected(md, CfgVerifier) == old(Selected(md, CfgVerifier));
      assert RoleViews(md, CfgFilter) == filters && RoleViews(md, CfgVerifier) == verifiers;
      r := FinishBind(entry, md, g.value, c, validate);
    }

    /** `list_accept_choices(entry, metadata)`. */
    function ListAcceptChoices(md: Metadata, c: Collaborators): Result<seq<Specificity>, AcceptError>
      requires BestReturnsMember(c)
      reads this, entries.Values
    {
      ValuesInSpec(order, entries);
      AcceptChoices(Views(Handlers()), md, c)
    }
  }

  /** The first loop of `_validate_data`: `verifiers_by_class`. */
  method GroupVerifiers(vs: seq<HandlerView>) returns (keys: seq<string>, byClass: map<string, seq<HandlerView>>)
    ensures (keys, byClass) == GroupByClass(vs)
  {
    keys, byClass := [], map[];
    var i := 0;
    while i < |vs|
      invariant 0 <= i <= |vs|
      invariant (keys, byClass) == GroupByClass(vs[..i])
    {
      assert vs[..i + 1][..i] == vs[..i];
      var n := vs[i].cls.name;
      if n !in byClass {
        keys := keys + [n];
        byClass := byClass[n := [vs[i]]];
      } else {
        byClass := byClass[n := byClass[n] + [vs[i]]];
      }
      i := i + 1;
    }
    assert vs[..|vs|] == vs;
  }

  /** The second loop of `_validate_data`: the best verifier of each
      class, in key order, until one fails. */
  method CheckVerifierGroups(keys: seq<string>, byClass: map<string, seq<HandlerView>>, a: map<string, string>, md: Metadata, d: Data, c: Collaborators)
    returns (r: Result<(), BindError>)
    requires BestReturnsMember(c)
    requires forall k :: k in keys ==> k in byClass
    ensures r == CheckGroups(keys, byClass, a, md, d, c)
  {
    var j := 0;
    while j < |keys|
      invariant 0 <= j <= |keys|
      invariant CheckGroups(keys, byClass, a, md, d, c) == CheckGroups(keys[j..], byClass, a, md, d, c)
    {
      var grp := byClass[keys[j]];
      var b := c.best(md, Specifics(grp));
      if b.None? {
        return Failure(NoBestVerifier(keys[j]));
      }
      if !c.verifyEntry(grp[b.value], a, md, d) {
        return Failure(VerificationFailed(grp[b.value].name));
      }
      assert keys[j..][1..] == keys[j + 1..];
      j := j + 1;
    }
    return Success(());
  }

  /** The Cfg plugin: one entry set per entry name. */
  class Cfg {
    var entries: map<string, CfgEntrySet>

    constructor ()
      ensures entries == map[]
    {
      entries := map[];
    }

    /** `has_generator(entry, metadata)`: the entry's name is indexed and a
        generator of its entry set applies to the client. */
    method HasGenerator(name: string, md: Metadata) returns (b: bool)
      requires name in entries ==> entries[name].Valid()
      ensures b <==> (name in entries &&
        exists k :: k in entries[name].entries && Applies(entries[name].entries[k], md, CfgGenerator))
    {
      if name !in entries {
        return false;
      }
      var es := entries[name];
      var rv := es.GetHandlers(md, CfgGenerator);
      es.SelectedEmpty(md, CfgGenerator);
      b := |rv| > 0;
    }

    /** `AcceptChoices(entry, metadata)`: the pull locations of the entry
        set named like the entry; a name without an entry set raises. */
    method AcceptChoices(name: string, md: Metadata, c: Collaborators) returns (r: Result<seq<Specificity>, AcceptError>)
      requires BestReturnsMember(c)
      ensures name !in entries ==> r == Failure(UnknownEntry)
      ensures name in entries ==> r == entries[name].ListAcceptChoices(md, c)
    {
      if name !in entries {
        return Failure(UnknownEntry);
      }
      r := entries[name].ListAcceptChoices(md, c);
    }
  }
}
