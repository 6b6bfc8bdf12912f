/** The objects the Cfg entry set works with: one handler object per file
    in an entry set's directory, the abstract configuration entry being
    bound, the metadata helper `_set_info`, and the collaborators whose
    code lies outside the entry set (the subclasses' hooks, the choice of
    the best matching handler, decoding and base64). */
module CfgHandlers {

  import opened Wrappers
  import opened Strings
  import opened Seqs
  import opened Specificity
  import opened CfgGrammar

  newtype byte = x: int | 0 <= x < 256

  /** File contents: a byte string as read from disk, or text a generator
      produced already decoded. */
  datatype Data = Bytes(bytes: seq<byte>) | Text(text: string)

  /** A snapshot of a handler object, as the collaborators see it. */
  datatype HandlerView = HandlerView(cls: HandlerClass, name: string, specific: Option<Specificity>, data: Data)

  /** An instance of a Cfg handler class tracking one file. `specific` is
      the specificity parsed from the filename, absent for classes that
      are not specific. */
  class CfgHandler {
    const cls: HandlerClass
    const name: string
    const specific: Option<Specificity>
    var data: Data

    constructor (cls: HandlerClass, name: string, specific: Option<Specificity>, contents: Data)
      ensures this.cls == cls && this.name == name && this.specific == specific && data == contents
    {
      this.cls := cls;
      this.name := name;
      this.specific := specific;
      data := contents;
    }

    /** Re-reading the file on a `changed` event. */
    method HandleEvent(contents: Data)
      modifies this
      ensures data == contents
    {
      data := contents;
    }

    function View(): HandlerView
      reads this
    {
      HandlerView(cls, name, specific, data)
    }
  }

  function Views(hs: seq<CfgHandler>): (vs: seq<HandlerView>)
    reads hs
    ensures |vs| == |hs|
  {
    if hs == [] then [] else [hs[0].View()] + Views(hs[1..])
  }

  /** `isinstance(ent, handler_type) and (not ent.__specific__ or
      ent.specific.matches(metadata))`. */
  predicate Applies(h: CfgHandler, md: Metadata, role: Role) {
    h.cls.role == role && (!h.cls.specific || (h.specific.Some? && Matches(h.specific.value, md)))
  }

  function AppliesTo(md: Metadata, role: Role): CfgHandler -> bool {
    (h: CfgHandler) => Applies(h, md, role)
  }

  /** The values of `m` listed in the order of `keys` (keys missing from
      `m` are skipped). */
  function ValuesIn(keys: seq<string>, m: map<string, CfgHandler>): (vs: seq<CfgHandler>)
  {
    if keys == [] then []
    else ValuesIn(keys[..|keys| - 1], m) + (if keys[|keys| - 1] in m then [m[keys[|keys| - 1]]] else [])
  }

  /** When every key is present, the values are listed one per key, in
      key order; in any case only values of `m` are listed. */
  lemma {:induction false} ValuesInSpec(keys: seq<string>, m: map<string, CfgHandler>)
    ensures var vs := ValuesIn(keys, m);
      && |vs| <= |keys|
      && ((forall k :: k in keys ==> k in m) ==> |vs| == |keys| && forall i :: 0 <= i < |keys| ==> vs[i] == m[keys[i]])
      && (forall i :: 0 <= i < |vs| ==> vs[i] in m.Values)
  {
    if keys != [] {
      var init := keys[..|keys| - 1];
      ValuesInSpec(init, m);
      if forall k :: k in keys ==> k in m {
        forall k | k in init
          ensures k in m
        {
          var i :| 0 <= i < |init| && init[i] == k;
          assert keys[i] == k;
        }
      }
    }
  }

  // ---------------------------------------------------------------------
  // The entry being bound

  /** The abstract configuration entry (an XML element): a tag, its
      attributes and its text. */
  class Entry {
    const tag: string
    var attrib: map<string, string>
    var text: Option<string>

    constructor (tag: string, attrib: map<string, string>)
      ensures this.tag == tag && this.attrib == attrib && text == None
    {
      this.tag := tag;
      this.attrib := attrib;
      text := None;
    }
  }

  /** One step of `_set_info`: write the pair unless its key starts with
      `__`. */
  function SetInfoStep(a: map<string, string>, kv: (string, string)): map<string, string> {
    if StartsWith(kv.0, "__") then a else a[kv.0 := kv.1]
  }

  /** The attributes after `_set_info` wrote the pairs of `info`, in order. */
  function ApplyInfo(a: map<string, string>, info: seq<(string, string)>): map<string, string>
  {
    if info == [] then a else SetInfoStep(ApplyInfo(a, info[..|info| - 1]), info[|info| - 1])
  }

  /** `CfgInfo._set_info(entry, info)`. */
  method SetInfo(entry: Entry, info: seq<(string, string)>)
    modifies entry
    ensures entry.attrib == ApplyInfo(old(entry.attrib), info)
    ensures entry.text == old(entry.text)
  {
    var i := 0;
    while i < |info|
      invariant 0 <= i <= |info|
      invariant entry.attrib == ApplyInfo(old(entry.attrib), info[..i])
      invariant entry.text == old(entry.text)
    {
      assert info[..i + 1][..i] == info[..i];
      if !StartsWith(info[i].0, "__") {
        entry.attrib := entry.attrib[info[i].0 := info[i].1];
      }
      i := i + 1;
    }
    assert info[..|info|] == info;
  }

  predicate NotKeyOf(info: seq<(string, string)>, k: string) {
    forall i :: 0 <= i < |info| ==> info[i].0 != k
  }

  /** `_set_info` leaves alone every key that starts with `__`, and every
      key the info does not mention. */
  lemma {:induction false} ApplyInfoUntouched(a: map<string, string>, info: seq<(string, string)>, k: string)
    requires StartsWith(k, "__") || NotKeyOf(info, k)
    ensures (k in ApplyInfo(a, info) <==> k in a)
    ensures k in a ==> ApplyInfo(a, info)[k] == a[k]
  {
    if info != [] {
      ApplyInfoUntouched(a, info[..|info| - 1], k);
      if !StartsWith(k, "__") {
        assert info[|info| - 1].0 != k;
      }
    }
  }

  /** Keys are distinct, as in a dict. */
  predicate DistinctKeys(info: seq<(string, string)>) {
    forall i, j :: 0 <= i < j < |info| ==> info[i].0 != info[j].0
  }

  /** Every pair of a dict whose key does not start with `__` is written. */
  lemma {:induction false} ApplyInfoWrites(a: map<string, string>, info: seq<(string, string)>, i: nat)
    requires DistinctKeys(info) && i < |info| && !StartsWith(info[i].0, "__")
    ensures info[i].0 in ApplyInfo(a, info) && ApplyInfo(a, info)[info[i].0] == info[i].1
  {
    var n := |info| - 1;
    if i < n {
      ApplyInfoWrites(a, info[..n], i);
    }
  }

  // ---------------------------------------------------------------------
  // Collaborators

  datatype DecodeError = UnicodeDecodeError | ValueError

  /** The behaviour the entry set delegates: the default file metadata,
      `best_matching` (`None` where it raises), each class's
      `bind_info_to_entry` (as the dict it hands to `_set_info`),
      `get_data`, `modify_data` and `verify_entry` (`None`/false where they
      raise), the on-disk permissions of a file as `str(oct(mode))`,
      `b64encode`, and decoding bytes in the entry set's encoding. */
  datatype Collaborators = Collaborators(
    defaults: seq<(string, string)>,
    best: (Metadata, seq<Option<Specificity>>) -> Option<nat>,
    info: (HandlerView, Metadata) -> seq<(string, string)>,
    getData: (HandlerView, map<string, string>, Metadata) -> Option<Data>,
    modifyData: (HandlerView, map<string, string>, Metadata, Data) -> Option<Data>,
    verifyEntry: (HandlerView, map<string, string>, Metadata, Data) -> bool,
    statPerms: string -> string,
    b64: Data -> string,
    decode: (seq<byte>, string) -> Result<string, DecodeError>)

  /** `best_matching` returns one of the candidates it was given, or
      raises. */
  ghost predicate BestReturnsMember(c: Collaborators) {
    forall md, ss :: c.best(md, ss).Some? ==> c.best(md, ss).value < |ss|
  }

  /** The specificities `best_matching` looks at. */
  function Specifics(vs: seq<HandlerView>): (ss: seq<Option<Specificity>>)
    ensures |ss| == |vs| && forall i :: 0 <= i < |vs| ==> ss[i] == vs[i].specific
  {
    seq(|vs|, i requires 0 <= i < |vs| => vs[i].specific)
  }
}
