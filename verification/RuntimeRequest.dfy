/** Building a runtime execution request from two layers of options. */
module RuntimeRequest {
  import opened Prelude
  import opened Json
  import Text

  const KEY_TOOL_NAME := "runtime.tool_name"
  const KEY_ARGS := "runtime.args"
  const KEY_APPROVED := "runtime.approved"
  const KEY_CORRELATION_ID := "runtime.correlation_id"
  const KEY_SESSION_ID := "runtime.session_id"
  const KEY_SESSION_REQUESTED_ID := "runtime.session.requested_id"
  const KEY_SESSION_REPO_URL := "runtime.session.repo_url"
  const KEY_SESSION_REPO_REF := "runtime.session.repo_ref"
  const KEY_SESSION_SOURCE_REPO_PATH := "runtime.session.source_repo_path"
  const KEY_SESSION_ALLOWED_PATHS := "runtime.session.allowed_paths"
  const KEY_SESSION_METADATA := "runtime.session.metadata"
  const KEY_SESSION_EXPIRES_IN_SECONDS := "runtime.session.expires_in_seconds"
  const U32_MAX: nat := 0xFFFF_FFFF

  const PROPOSAL_ID := "choreographer.proposal_id"
  const AUTHOR_ID := "choreographer.author_id"
  const SPECIALTY := "choreographer.specialty"

  datatype RequestError =
    | EmptyField(key: string) | NotAString | NotABool | NotAnUnsigned | NotStrings | NotStringMap | NotAnObject

  datatype Winner = Winner(id: string, author: string, specialty: string, attributes: map<string, Value>)

  datatype Request = Request(
    sessionId: Option<string>, requestedSessionId: Option<string>, repoUrl: Option<string>, repoRef: Option<string>,
    sourceRepoPath: Option<string>, allowedPaths: seq<string>, sessionMetadata: map<string, string>,
    expiresInSeconds: Option<nat>, toolName: string, correlationId: string, approved: bool, args: seq<Field>)

  /** Options shadow the winner's attributes, also when the option is null. */
  function Lookup(options: map<string, Value>, attributes: map<string, Value>, key: string): Option<Value>
  {
    if key in options then Some(options[key]) else if key in attributes then Some(attributes[key]) else None
  }

  predicate Unset(v: Option<Value>) { v.None? || v.value.Null? }

  /** Nothing is left of the text once it is trimmed (`Text.TrimEmptyIffBlank`). */
  predicate BlankText(s: string) { Text.Blank(s) }

  function OptionalString(v: Option<Value>): Result<Option<string>, RequestError>
  {
    if Unset(v) then Ok(None)
    else if !v.value.Str? then Err(NotAString)
    else if BlankText(v.value.s) then Ok(None) else Ok(Some(v.value.s))
  }

  function OptionalBool(v: Option<Value>): Result<Option<bool>, RequestError>
  {
    if Unset(v) then Ok(None) else if v.value.Bool? then Ok(Some(v.value.b)) else Err(NotABool)
  }

  /** Only a non-negative integer of at most 32 bits is accepted; a float is not, whatever its value. */
  function OptionalU32(v: Option<Value>): Result<Option<nat>, RequestError>
  {
    if Unset(v) then Ok(None)
    else match v.value
      case Num(PosInt(n)) => if n <= U32_MAX then Ok(Some(n)) else Err(NotAnUnsigned)
      case _ => Err(NotAnUnsigned)
  }

  function CollectStrings(items: seq<Value>): Result<seq<string>, RequestError>
  {
    if items == [] then Ok([])
    else if !Visible(items[0]) then Err(NotStrings)
    else
      var rest :- CollectStrings(items[1..]);
      Ok([items[0].s] + rest)
  }

  function OptionalStrings(v: Option<Value>): Result<Option<seq<string>>, RequestError>
  {
    if Unset(v) then Ok(None)
    else if !v.value.Arr? then Err(NotStrings)
    else
      var items :- CollectStrings(v.value.items);
      Ok(Some(items))
  }

  function CollectMap(fields: seq<Field>): Result<map<string, string>, RequestError>
  {
    if fields == [] then Ok(map[])
    else
      var last := fields[|fields| - 1];
      var init :- CollectMap(fields[..|fields| - 1]);
      if last.value.Str? then Ok(init[last.key := last.value.s]) else Err(NotStringMap)
  }

  function OptionalMap(v: Option<Value>): Result<Option<map<string, string>>, RequestError>
  {
    if Unset(v) then Ok(None)
    else if !v.value.Obj? then Err(NotStringMap)
    else
      var m :- CollectMap(v.value.fields);
      Ok(Some(m))
  }

  function OptionalObject(v: Option<Value>): Result<Option<seq<Field>>, RequestError>
  {
    if Unset(v) then Ok(None) else if v.value.Obj? then Ok(Some(v.value.fields)) else Err(NotAnObject)
  }

  function OrElse<T>(v: Option<T>, default: T): T { if v.Some? then v.value else default }

  function OrInsert(m: map<string, string>, key: string, v: string): map<string, string>
  {
    if key in m then m else m[key := v]
  }

  function Provenance(supplied: map<string, string>, w: Winner): map<string, string>
  {
    OrInsert(OrInsert(OrInsert(supplied, PROPOSAL_ID, w.id), AUTHOR_ID, w.author), SPECIALTY, w.specialty)
  }

  /** The raw value of every option the request reads. */
  datatype RawOptions = RawOptions(
    tool: Option<Value>, correlation: Option<Value>, approved: Option<Value>, session: Option<Value>,
    requested: Option<Value>, url: Option<Value>, ref: Option<Value>, source: Option<Value>, paths: Option<Value>,
    expires: Option<Value>, args: Option<Value>, metadata: Option<Value>)

  function ReadAll(options: map<string, Value>, attributes: map<string, Value>): RawOptions
  {
    RawOptions(
      Lookup(options, attributes, KEY_TOOL_NAME), Lookup(options, attributes, KEY_CORRELATION_ID),
      Lookup(options, attributes, KEY_APPROVED), Lookup(options, attributes, KEY_SESSION_ID),
      Lookup(options, attributes, KEY_SESSION_REQUESTED_ID), Lookup(options, attributes, KEY_SESSION_REPO_URL),
      Lookup(options, attributes, KEY_SESSION_REPO_REF), Lookup(options, attributes, KEY_SESSION_SOURCE_REPO_PATH),
      Lookup(options, attributes, KEY_SESSION_ALLOWED_PATHS),
      Lookup(options, attributes, KEY_SESSION_EXPIRES_IN_SECONDS),
      Lookup(options, attributes, KEY_ARGS), Lookup(options, attributes, KEY_SESSION_METADATA))
  }

  /** The request, or the first malformed option in reading order. */
  function Build(raw: RawOptions, w: Winner): Result<Request, RequestError>
  {
    var tool :- OptionalString(raw.tool);
    if tool.None? then Err(EmptyField(KEY_TOOL_NAME))
    else
      var correlation :- OptionalString(raw.correlation);
      var approved :- OptionalBool(raw.approved);
      var session :- OptionalString(raw.session);
      var requested :- OptionalString(raw.requested);
      var url :- OptionalString(raw.url);
      var ref :- OptionalString(raw.ref);
      var source :- OptionalString(raw.source);
      var paths :- OptionalStrings(raw.paths);
      var expires :- OptionalU32(raw.expires);
      var args :- OptionalObject(raw.args);
      var metadata :- OptionalMap(raw.metadata);
      Ok(Request(session, requested, url, ref, source, OrElse(paths, []), Provenance(OrElse(metadata, map[]), w),
                 expires, tool.value, OrElse(correlation, w.id), OrElse(approved, false), OrElse(args, [])))
  }

  function FromInputs(options: map<string, Value>, w: Winner): Result<Request, RequestError>
  {
    Build(ReadAll(options, w.attributes), w)
  }

  // ---------- Layering ----------

  lemma LookupMerges(options: map<string, Value>, attributes: map<string, Value>, key: string)
    ensures Lookup(options, attributes, key) == Lookup(attributes + options, map[], key)
  {
  }

  /** Two layers read like one: the winner's attributes overridden, key by key, by the options. */
  lemma LayersAreOverrides(options: map<string, Value>, w: Winner)
    ensures ReadAll(options, w.attributes) == ReadAll(w.attributes + options, map[])
    ensures FromInputs(options, w) == Build(ReadAll(w.attributes + options, map[]), w)
  {
    forall key ensures Lookup(options, w.attributes, key) == Lookup(w.attributes + options, map[], key) {
      LookupMerges(options, w.attributes, key);
    }
  }

  // ---------- When a request is well formed ----------

  predicate StringOption(v: Option<Value>) { Unset(v) || v.value.Str? }

  predicate Visible(v: Value) { v.Str? && !BlankText(v.s) }

  predicate VisibleStrings(items: seq<Value>) { forall v :: v in items ==> Visible(v) }

  predicate StringFields(fields: seq<Field>) { forall f :: f in fields ==> f.value.Str? }

  predicate PathsOption(v: Option<Value>) { Unset(v) || (v.value.Arr? && VisibleStrings(v.value.items)) }

  predicate MapOption(v: Option<Value>) { Unset(v) || (v.value.Obj? && StringFields(v.value.fields)) }

  predicate U32Option(v: Option<Value>) { Unset(v) || (v.value.Num? && IsU32(v.value.n)) }

  predicate IsU32(n: Number) { match n case PosInt(k) => k <= 4294967295 case _ => false }

  /** Every option has the shape its reader demands, and there is a visible tool name. */
  predicate WellFormed(raw: RawOptions)
  {
    && raw.tool.Some? && Visible(raw.tool.value)
    && StringOption(raw.correlation) && StringOption(raw.session) && StringOption(raw.requested)
    && StringOption(raw.url) && StringOption(raw.ref) && StringOption(raw.source)
    && (Unset(raw.approved) || raw.approved.value.Bool?)
    && PathsOption(raw.paths) && U32Option(raw.expires) && MapOption(raw.metadata)
    && (Unset(raw.args) || raw.args.value.Obj?)
  }

  lemma {:induction false} CollectStringsMeaning(items: seq<Value>)
    ensures CollectStrings(items).Ok? <==> VisibleStrings(items)
    ensures CollectStrings(items).Ok? ==>
              |CollectStrings(items).value| == |items| &&
              forall i :: 0 <= i < |items| ==> items[i] == Str(CollectStrings(items).value[i])
  {
    if items != [] {
      CollectStringsMeaning(items[1..]);
      assert items == [items[0]] + items[1..];
    }
  }

  lemma {:induction false} CollectMapMeaning(fields: seq<Field>)
    ensures CollectMap(fields).Ok? <==> StringFields(fields)
    ensures CollectMap(fields).Ok? ==> Holds(fields, CollectMap(fields).value)
  {
    if fields != [] {
      var init := fields[..|fields| - 1];
      CollectMapMeaning(init);
      assert fields == init + [fields[|fields| - 1]];
      if CollectMap(fields).Ok? { HoldsOneMore(fields, CollectMap(init).value); }
    }
  }

  lemma HoldsOneMore(fields: seq<Field>, m: map<string, string>)
    requires fields != [] && fields[|fields| - 1].value.Str? && Holds(fields[..|fields| - 1], m)
    ensures Holds(fields, m[fields[|fields| - 1].key := fields[|fields| - 1].value.s])
  {
    var init := fields[..|fields| - 1];
    forall i | 0 <= i < |init| && LastOfItsKey(fields, i)
      ensures LastOfItsKey(init, i) && fields[|fields| - 1].key != fields[i].key && init[i] == fields[i]
    {
      assert forall j :: 0 <= j < |init| ==> init[j] == fields[j];
    }
  }

  /** No later field has the same key; in a JSON object that is every field. */
  predicate LastOfItsKey(fields: seq<Field>, i: nat)
    requires i < |fields|
  {
    forall j :: i < j < |fields| ==> fields[j].key != fields[i].key
  }

  lemma ReadersMean(paths: Option<Value>, metadata: Option<Value>, expires: Option<Value>)
    ensures OptionalStrings(paths).Ok? <==> PathsOption(paths)
    ensures OptionalMap(metadata).Ok? <==> MapOption(metadata)
    ensures OptionalU32(expires).Ok? <==> U32Option(expires)
  {
    if paths.Some? && paths.value.Arr? { CollectStringsMeaning(paths.value.items); }
    if metadata.Some? && metadata.value.Obj? { CollectMapMeaning(metadata.value.fields); }
  }

  /** A request is built exactly from well-formed options; anything else is refused. */
  lemma BuiltIffWellFormed(raw: RawOptions, w: Winner)
    ensures Build(raw, w).Ok? <==> WellFormed(raw)
  {
    ReadersMean(raw.paths, raw.metadata, raw.expires);
  }

  lemma {:induction false} CollectErrors(items: seq<Value>, fields: seq<Field>)
    ensures CollectStrings(items).Err? ==> CollectStrings(items).error == NotStrings
    ensures CollectMap(fields).Err? ==> CollectMap(fields).error == NotStringMap
    decreases |items| + |fields|
  {
    if items != [] { CollectErrors(items[1..], fields); }
    if fields != [] { CollectErrors(items, fields[..|fields| - 1]); }
  }

  /** The errors of the two collection readers. */
  lemma LateRefusal(raw: RawOptions)
    ensures OptionalStrings(raw.paths).Err? ==> OptionalStrings(raw.paths).error == NotStrings
    ensures OptionalMap(raw.metadata).Err? ==> OptionalMap(raw.metadata).error == NotStringMap
  {
    if raw.paths.Some? && raw.paths.value.Arr? { CollectErrors(raw.paths.value.items, []); }
    if raw.metadata.Some? && raw.metadata.value.Obj? { CollectErrors([], raw.metadata.value.fields); }
  }

  /** A refusal names the first option, in reading order, that is not of its shape. */
  lemma RefusalIsTheFirst(raw: RawOptions, w: Winner)
    requires Build(raw, w).Err?
    ensures Build(raw, w).error ==
            if !StringOption(raw.tool) then NotAString
            else if raw.tool.None? || !Visible(raw.tool.value) then EmptyField("runtime.tool_name")
            else if !StringOption(raw.correlation) then NotAString
            else if !Unset(raw.approved) && !raw.approved.value.Bool? then NotABool
            else if !(StringOption(raw.session) && StringOption(raw.requested) && StringOption(raw.url) &&
                      StringOption(raw.ref) && StringOption(raw.source)) then NotAString
            else if !PathsOption(raw.paths) then NotStrings
            else if !U32Option(raw.expires) then NotAnUnsigned
            else if !Unset(raw.args) && !raw.args.value.Obj? then NotAnObject
            else NotStringMap
  {
    ReadersMean(raw.paths, raw.metadata, raw.expires);
    LateRefusal(raw);
  }

  /** The text an option carries: none when unset or blank. */
  function TextOf(v: Option<Value>): Option<string>
  {
    if v.Some? && Visible(v.value) then Some(v.value.s) else None
  }

  /** Every field of a built request is what its own option says, or that option's default. */
  lemma BuiltRequestReads(raw: RawOptions, w: Winner)
    requires Build(raw, w).Ok?
    ensures var r := Build(raw, w).value;
            && Some(r.toolName) == TextOf(raw.tool)
            && Some(r.correlationId) == (if TextOf(raw.correlation).Some? then TextOf(raw.correlation) else Some(w.id))
            && r.sessionId == TextOf(raw.session) && r.requestedSessionId == TextOf(raw.requested)
            && r.repoUrl == TextOf(raw.url) && r.repoRef == TextOf(raw.ref) && r.sourceRepoPath == TextOf(raw.source)
            && (r.approved <==> raw.approved == Some(Bool(true)))
            && (Unset(raw.args) ==> r.args == []) && (!Unset(raw.args) ==> raw.args == Some(Obj(r.args)))
            && (r.expiresInSeconds.None? ==> Unset(raw.expires))
            && (r.expiresInSeconds.Some? ==> raw.expires == Some(Num(PosInt(r.expiresInSeconds.value))))
  {
  }

  /** The listed strings, in order; none when unset. */
  predicate ListsPaths(v: Option<Value>, paths: seq<string>)
  {
    if Unset(v) then paths == []
    else
      && v.value.Arr? && |v.value.items| == |paths|
      && forall i :: 0 <= i < |paths| ==> v.value.items[i] == Str(paths[i])
  }

  /** Each supplied field is there under its key. */
  predicate HoldsFields(v: Option<Value>, m: map<string, string>)
  {
    Unset(v) || (v.value.Obj? && Holds(v.value.fields, m))
  }

  predicate Holds(fields: seq<Field>, m: map<string, string>)
  {
    forall i :: 0 <= i < |fields| && LastOfItsKey(fields, i) ==>
      fields[i].key in m && fields[i].value == Str(m[fields[i].key])
  }

  /** So do the two collections: the paths in order, the metadata key by key beneath the provenance. */
  lemma BuiltCollectionsRead(raw: RawOptions, w: Winner)
    requires Build(raw, w).Ok?
    ensures ListsPaths(raw.paths, Build(raw, w).value.allowedPaths)
    ensures HoldsFields(raw.metadata, Build(raw, w).value.sessionMetadata)
  {
    if !Unset(raw.paths) { CollectStringsMeaning(raw.paths.value.items); }
    if !Unset(raw.metadata) {
      CollectMapMeaning(raw.metadata.value.fields);
      ProvenanceIsRecorded(CollectMap(raw.metadata.value.fields).value, w);
    }
  }

  /** The entry of one map. */
  function Entry(m: map<string, Value>, key: string): Option<Value> { if key in m then Some(m[key]) else None }

  /** Each raw option is the entry under its own name, the options' over the winner's. */
  lemma OptionsAreNamed(options: map<string, Value>, attributes: map<string, Value>)
    ensures var raw, all := ReadAll(options, attributes), attributes + options;
            && raw.tool == Entry(all, "runtime.tool_name")
            && raw.correlation == Entry(all, "runtime.correlation_id")
            && raw.approved == Entry(all, "runtime.approved")
            && raw.session == Entry(all, "runtime.session_id")
            && raw.requested == Entry(all, "runtime.session.requested_id")
            && raw.url == Entry(all, "runtime.session.repo_url")
            && raw.ref == Entry(all, "runtime.session.repo_ref")
            && raw.source == Entry(all, "runtime.session.source_repo_path")
            && raw.paths == Entry(all, "runtime.session.allowed_paths")
            && raw.expires == Entry(all, "runtime.session.expires_in_seconds")
            && raw.args == Entry(all, "runtime.args")
            && raw.metadata == Entry(all, "runtime.session.metadata")
  {
  }

  /** The text an entry carries. */
  function NamedText(all: map<string, Value>, key: string): Option<string> { TextOf(Entry(all, key)) }

  /** From inputs to request: every field is what the caller wrote under its own key, or its default. */
  lemma RequestReadsItsKeys(options: map<string, Value>, w: Winner)
    requires FromInputs(options, w).Ok?
    ensures var r, all := FromInputs(options, w).value, w.attributes + options;
            && Some(r.toolName) == NamedText(all, "runtime.tool_name")
            && r.correlationId == OrElse(NamedText(all, "runtime.correlation_id"), w.id)
            && r.sessionId == NamedText(all, "runtime.session_id")
            && r.requestedSessionId == NamedText(all, "runtime.session.requested_id")
            && r.repoUrl == NamedText(all, "runtime.session.repo_url")
            && r.repoRef == NamedText(all, "runtime.session.repo_ref")
            && r.sourceRepoPath == NamedText(all, "runtime.session.source_repo_path")
  {
    var raw := ReadAll(options, w.attributes);
    OptionsAreNamed(options, w.attributes);
    BuiltRequestReads(raw, w);
  }

  lemma RequestReadsItsOtherKeys(options: map<string, Value>, w: Winner)
    requires FromInputs(options, w).Ok?
    ensures var r, all := FromInputs(options, w).value, w.attributes + options;
            && (r.approved <==> Entry(all, "runtime.approved") == Some(Bool(true)))
            && ListsPaths(Entry(all, "runtime.session.allowed_paths"), r.allowedPaths)
            && HoldsFields(Entry(all, "runtime.session.metadata"), r.sessionMetadata)
            && (if Unset(Entry(all, "runtime.args")) then r.args == [] else all["runtime.args"] == Obj(r.args))
            && (if Unset(Entry(all, "runtime.session.expires_in_seconds")) then r.expiresInSeconds.None?
                else r.expiresInSeconds.Some? &&
                     all["runtime.session.expires_in_seconds"] == Num(PosInt(r.expiresInSeconds.value)))
  {
    var raw := ReadAll(options, w.attributes);
    OptionsAreNamed(options, w.attributes);
    BuiltRequestReads(raw, w);
    BuiltCollectionsRead(raw, w);
  }

  /** Provenance is always recorded, and never over what the caller supplied. */
  lemma ProvenanceIsRecorded(supplied: map<string, string>, w: Winner)
    ensures var m := Provenance(supplied, w);
            && m.Keys == supplied.Keys
                         + {"choreographer.proposal_id", "choreographer.author_id", "choreographer.specialty"}
            && (forall k :: k in supplied ==> m[k] == supplied[k])
            && ("choreographer.proposal_id" !in supplied ==> m["choreographer.proposal_id"] == w.id)
            && ("choreographer.author_id" !in supplied ==> m["choreographer.author_id"] == w.author)
            && ("choreographer.specialty" !in supplied ==> m["choreographer.specialty"] == w.specialty)
  {
    assert PROPOSAL_ID[14] != AUTHOR_ID[14] && PROPOSAL_ID[14] != SPECIALTY[14] && AUTHOR_ID[14] != SPECIALTY[14];
  }
}
