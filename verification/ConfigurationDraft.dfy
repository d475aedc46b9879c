/**
The configuration editor as a pair of functions over versioned snapshots: reading the values of
one scope, and building the draft that saves edited values for that scope.
*/
module ConfigurationDraft {
  import opened Wrappers

  datatype Scope = SystemScope | TenantScope | AgentScope | ChannelScope | UserScope

  /** A JSON value; a number knows whether it was written as an integer. */
  datatype ConfigValue =
    | NullValue | TextValue(text: string) | FlagValue(flag: bool) | NumberValue(number: real, whole: bool)
    | ListValue(items: seq<ConfigValue>) | ObjectValue

  datatype ValueKind = StringKind | BooleanKind | IntegerKind | NumberKind | StringListKind | SecretKind

  datatype Definition = Definition(
    key: string, default: ConfigValue, scopes: set<Scope>, secret: bool, kind: ValueKind, minimum: Option<real>,
    maximum: Option<real>, options: seq<string>)

  datatype Entry = Entry(key: string, scope: Scope, scopeId: Option<string>, value: ConfigValue)

  datatype DraftError = MissingScopeId

  /** One editing target. */
  datatype Target = Target(scope: Scope, scopeId: Option<string>)

  predicate In(e: Entry, t: Target) {
    e.scope == t.scope && e.scopeId == t.scopeId
  }

  predicate Editable(d: Definition, t: Target) {
    !d.secret && t.scope in d.scopes
  }

  // ---------------------------------------------------------------- what the server accepts

  datatype EntryError =
    | UnknownKey | SecretKey | ScopeUnsupported | SystemScopeWithId | ScopeWithoutId | WrongKind | TooSmall | TooLarge
    | NotAnOption

  predicate OfKind(kind: ValueKind, value: ConfigValue) {
    match kind
    case StringKind => value.TextValue?
    case BooleanKind => value.FlagValue?
    case IntegerKind => value.NumberValue? && value.whole
    case NumberKind => value.NumberValue?
    case StringListKind => value.ListValue? && forall i :: 0 <= i < |value.items| ==> value.items[i].TextValue?
    case SecretKind => false
  }

  function ValueError(d: Definition, value: ConfigValue): Option<EntryError> {
    if !OfKind(d.kind, value) then Some(WrongKind)
    else if value.NumberValue? && d.minimum.Some? && value.number < d.minimum.value then Some(TooSmall)
    else if value.NumberValue? && d.maximum.Some? && value.number > d.maximum.value then Some(TooLarge)
    else if d.options != [] && !(value.TextValue? && value.text in d.options) then Some(NotAnOption)
    else None
  }

  function Find(definitions: seq<Definition>, key: string): Option<Definition> {
    if definitions == [] then None
    else if definitions[|definitions| - 1].key == key then Some(definitions[|definitions| - 1])
    else Find(definitions[..|definitions| - 1], key)
  }

  /** The registry's check of one entry. */
  function ValidateEntry(definitions: seq<Definition>, e: Entry): Option<EntryError> {
    match Find(definitions, e.key)
    case None => Some(UnknownKey)
    case Some(d) =>
      if d.secret then Some(SecretKey)
      else if e.scope !in d.scopes then Some(ScopeUnsupported)
      else if e.scope == SystemScope && e.scopeId.Some? then Some(SystemScopeWithId)
      else if e.scope != SystemScope && e.scopeId.None? then Some(ScopeWithoutId)
      else ValueError(d, e.value)
  }

  /** Every snapshot that was created, published or rolled back to passed this check. */
  ghost predicate Snapshot(definitions: seq<Definition>, entries: seq<Entry>) {
    NoDuplicates(entries) && forall i :: 0 <= i < |entries| ==> ValidateEntry(definitions, entries[i]) == None
  }

  // ---------------------------------------------------------------- reading

  /** The published values; there may be no published version yet. */
  function Entries(published: Option<seq<Entry>>): seq<Entry> {
    if published.Some? then published.value else []
  }

  function Defaults(definitions: seq<Definition>): map<string, ConfigValue> {
    if definitions == [] then map[]
    else Defaults(definitions[..|definitions| - 1])[
        definitions[|definitions| - 1].key := definitions[|definitions| - 1].default]
  }

  function Overlay(values: map<string, ConfigValue>, entries: seq<Entry>, t: Target): map<string, ConfigValue> {
    if entries == [] then values else
    var before, last := Overlay(values, entries[..|entries| - 1], t), entries[|entries| - 1];
    if In(last, t) then before[last.key := last.value] else before
  }

  function Read(definitions: seq<Definition>, entries: seq<Entry>, t: Target): map<string, ConfigValue> {
    Overlay(Defaults(definitions), entries, t)
  }

  method ValuesForScope(definitions: seq<Definition>, published: Option<seq<Entry>>, t: Target)
    returns (values: map<string, ConfigValue>)
    ensures values == Read(definitions, Entries(published), t)
  {
    var entries := if published.Some? then published.value else [];
    values := Defaults(definitions);
    for n := 0 to |entries|
      invariant values == Overlay(Defaults(definitions), entries[..n], t)
    {
      assert entries[..n + 1][..n] == entries[..n];
      if In(entries[n], t) {
        values := values[entries[n].key := entries[n].value];
      }
    }
    assert entries[..|entries|] == entries;
  }

  // ---------------------------------------------------------------- saving

  function Untouched(entries: seq<Entry>, t: Target): seq<Entry> {
    if entries == [] then [] else
    var before, last := Untouched(entries[..|entries| - 1], t), entries[|entries| - 1];
    if In(last, t) then before else before + [last]
  }

  function InScope(entries: seq<Entry>, t: Target): seq<Entry> {
    if entries == [] then [] else
    var before, last := InScope(entries[..|entries| - 1], t), entries[|entries| - 1];
    if In(last, t) then before + [last] else before
  }

  /** A missing or null edited value falls back to the default. */
  function Chosen(values: map<string, ConfigValue>, d: Definition): ConfigValue {
    if d.key in values && values[d.key] != NullValue then values[d.key] else d.default
  }

  function Edited(definitions: seq<Definition>, values: map<string, ConfigValue>, t: Target): seq<Entry> {
    if definitions == [] then [] else
    var before, last := Edited(definitions[..|definitions| - 1], values, t), definitions[|definitions| - 1];
    if Editable(last, t) then before + [Entry(last.key, t.scope, t.scopeId, Chosen(values, last))] else before
  }

  function Save(entries: seq<Entry>, definitions: seq<Definition>, values: map<string, ConfigValue>, t: Target)
    : seq<Entry>
  {
    Untouched(entries, t) + Edited(definitions, values, t)
  }

  function CreateDraft(
    published: Option<seq<Entry>>, definitions: seq<Definition>, values: map<string, ConfigValue>, t: Target)
    : Result<seq<Entry>, DraftError>
  {
    if t.scope != SystemScope && (t.scopeId.None? || t.scopeId.value == "") then Err(MissingScopeId)
    else Ok(Save(Entries(published), definitions, values, t))
  }

  // ---------------------------------------------------------------- filters

  lemma {:induction false} FilterAppend(a: seq<Entry>, b: seq<Entry>, t: Target)
    ensures InScope(a + b, t) == InScope(a, t) + InScope(b, t)
    ensures Untouched(a + b, t) == Untouched(a, t) + Untouched(b, t)
  {
    if b == [] {
      assert a + b == a;
    } else {
      FilterAppend(a, b[..|b| - 1], t);
      assert (a + b)[..|a + b| - 1] == a + b[..|b| - 1];
    }
  }

  lemma {:induction false} UntouchedScopes(entries: seq<Entry>, t: Target, u: Target)
    ensures InScope(Untouched(entries, t), u) == if t == u then [] else InScope(entries, u)
    ensures Untouched(Untouched(entries, t), t) == Untouched(entries, t)
  {
    if entries != [] {
      var front, last := entries[..|entries| - 1], entries[|entries| - 1];
      UntouchedScopes(front, t, u);
      var rest := Untouched(front, t);
      assert (rest + [last])[..|rest|] == rest;
    }
  }

  lemma FilterPush(entries: seq<Entry>, e: Entry, t: Target)
    ensures InScope(entries + [e], t) == if In(e, t) then InScope(entries, t) + [e] else InScope(entries, t)
    ensures Untouched(entries + [e], t) == if In(e, t) then Untouched(entries, t) else Untouched(entries, t) + [e]
  {
  }

  lemma {:induction false} EditedScopes(
    definitions: seq<Definition>, values: map<string, ConfigValue>, t: Target, u: Target)
    ensures InScope(Edited(definitions, values, t), u) == if t == u then Edited(definitions, values, t) else []
    ensures Untouched(Edited(definitions, values, t), t) == []
  {
    if definitions != [] {
      var front, last := definitions[..|definitions| - 1], definitions[|definitions| - 1];
      EditedScopes(front, values, t, u);
      var e := Entry(last.key, t.scope, t.scopeId, Chosen(values, last));
      FilterPush(Edited(front, values, t), e, t);
      FilterPush(Edited(front, values, t), e, u);
    }
  }

  /** Saving one scope leaves every other scope's entries exactly as they were, in order. */
  lemma {:induction false} OtherScopesUnchanged(
    entries: seq<Entry>, definitions: seq<Definition>, values: map<string, ConfigValue>, t: Target, u: Target)
    requires t != u
    ensures InScope(Save(entries, definitions, values, t), u) == InScope(entries, u)
  {
    FilterAppend(Untouched(entries, t), Edited(definitions, values, t), u);
    UntouchedScopes(entries, t, u);
    EditedScopes(definitions, values, t, u);
  }

  lemma {:induction false} SavedScope(
    entries: seq<Entry>, definitions: seq<Definition>, values: map<string, ConfigValue>, t: Target)
    ensures InScope(Save(entries, definitions, values, t), t) == Edited(definitions, values, t)
  {
    FilterAppend(Untouched(entries, t), Edited(definitions, values, t), t);
    UntouchedScopes(entries, t, t);
    EditedScopes(definitions, values, t, t);
  }

  /** The later save of a scope wins entirely; in particular saving twice equals saving once. */
  lemma {:induction false} SaveAgain(
    entries: seq<Entry>, definitions: seq<Definition>, first: map<string, ConfigValue>,
    second: map<string, ConfigValue>, t: Target)
    ensures Save(Save(entries, definitions, first, t), definitions, second, t) == Save(entries, definitions, second, t)
  {
    FilterAppend(Untouched(entries, t), Edited(definitions, first, t), t);
    UntouchedScopes(entries, t, t);
    EditedScopes(definitions, first, t, t);
  }

  /** Saves of two scopes commute: every scope ends with the same entries. */
  lemma {:induction false} SavesCommute(
    entries: seq<Entry>, definitions: seq<Definition>, values: map<string, ConfigValue>,
    values': map<string, ConfigValue>, t: Target, t': Target, u: Target)
    requires t != t'
    ensures InScope(Save(Save(entries, definitions, values, t), definitions, values', t'), u) ==
            InScope(Save(Save(entries, definitions, values', t'), definitions, values, t), u)
  {
    var one, two := Save(entries, definitions, values, t), Save(entries, definitions, values', t');
    if u == t' {
      SavedScope(one, definitions, values', t');
      OtherScopesUnchanged(two, definitions, values, t, u);
      SavedScope(entries, definitions, values', t');
    } else if u == t {
      OtherScopesUnchanged(one, definitions, values', t', u);
      SavedScope(entries, definitions, values, t);
      SavedScope(two, definitions, values, t);
    } else {
      OtherScopesUnchanged(one, definitions, values', t', u);
      OtherScopesUnchanged(entries, definitions, values, t, u);
      OtherScopesUnchanged(two, definitions, values, t, u);
      OtherScopesUnchanged(entries, definitions, values', t', u);
    }
  }

  // ---------------------------------------------------------------- no duplicates

  predicate SameSlot(e: Entry, f: Entry) {
    e.key == f.key && e.scope == f.scope && e.scopeId == f.scopeId
  }

  ghost predicate NoDuplicates(entries: seq<Entry>) {
    forall i, j :: 0 <= i < j < |entries| ==> !SameSlot(entries[i], entries[j])
  }

  ghost predicate DistinctKeys(definitions: seq<Definition>) {
    forall i, j :: 0 <= i < j < |definitions| ==> definitions[i].key != definitions[j].key
  }

  lemma {:induction false} UntouchedMembers(entries: seq<Entry>, t: Target, e: Entry)
    ensures e in Untouched(entries, t) <==> e in entries && !In(e, t)
  {
    if entries != [] {
      UntouchedMembers(entries[..|entries| - 1], t, e);
      assert entries == entries[..|entries| - 1] + [entries[|entries| - 1]];
    }
  }

  lemma {:induction false} UntouchedDistinct(entries: seq<Entry>, t: Target)
    requires NoDuplicates(entries)
    ensures NoDuplicates(Untouched(entries, t))
  {
    if entries != [] {
      var front, last := entries[..|entries| - 1], entries[|entries| - 1];
      UntouchedDistinct(front, t);
      var rest := Untouched(front, t);
      forall i | 0 <= i < |rest| ensures !SameSlot(rest[i], last) {
        UntouchedMembers(front, t, rest[i]);
        var k :| 0 <= k < |front| && front[k] == rest[i];
        assert entries[k] == front[k];
      }
    }
  }

  lemma {:induction false} EditedMembers(
    definitions: seq<Definition>, values: map<string, ConfigValue>, t: Target, e: Entry)
    ensures e in Edited(definitions, values, t) <==>
            exists i :: 0 <= i < |definitions| && Editable(definitions[i], t) &&
              e == Entry(definitions[i].key, t.scope, t.scopeId, Chosen(values, definitions[i]))
  {
    if definitions != [] {
      var front, last := definitions[..|definitions| - 1], definitions[|definitions| - 1];
      EditedMembers(front, values, t, e);
      if i :| 0 <= i < |definitions| && Editable(definitions[i], t) &&
              e == Entry(definitions[i].key, t.scope, t.scopeId, Chosen(values, definitions[i])) {
        assert i < |front| ==> front[i] == definitions[i];
      }
      if i :| 0 <= i < |front| && Editable(front[i], t) &&
              e == Entry(front[i].key, t.scope, t.scopeId, Chosen(values, front[i])) {
        assert definitions[i] == front[i];
      }
    }
  }

  lemma {:induction false} EditedDistinct(definitions: seq<Definition>, values: map<string, ConfigValue>, t: Target)
    requires DistinctKeys(definitions)
    ensures NoDuplicates(Edited(definitions, values, t))
  {
    if definitions != [] {
      var front, last := definitions[..|definitions| - 1], definitions[|definitions| - 1];
      EditedDistinct(front, values, t);
      var before := Edited(front, values, t);
      forall i | 0 <= i < |before| ensures before[i].key != last.key {
        EditedMembers(front, values, t, before[i]);
        var k :| 0 <= k < |front| && Editable(front[k], t) &&
          before[i] == Entry(front[k].key, t.scope, t.scopeId, Chosen(values, front[k]));
        assert definitions[k] == front[k];
      }
    }
  }

  /** A draft of a snapshot without duplicates has none. */
  lemma {:induction false} SaveDistinct(
    entries: seq<Entry>, definitions: seq<Definition>, values: map<string, ConfigValue>, t: Target)
    requires NoDuplicates(entries) && DistinctKeys(definitions)
    ensures NoDuplicates(Save(entries, definitions, values, t))
  {
    var a, b := Untouched(entries, t), Edited(definitions, values, t);
    UntouchedDistinct(entries, t);
    EditedDistinct(definitions, values, t);
    forall i, j | 0 <= i < |a| && 0 <= j < |b| ensures !In(a[i], t) && In(b[j], t) {
      UntouchedMembers(entries, t, a[i]);
      EditedMembers(definitions, values, t, b[j]);
    }
  }

  // ---------------------------------------------------------------- reading back

  lemma {:induction false} OverlayScope(values: map<string, ConfigValue>, entries: seq<Entry>, t: Target)
    ensures Overlay(values, entries, t) == Overlay(values, InScope(entries, t), t)
  {
    if entries != [] {
      var front, last := entries[..|entries| - 1], entries[|entries| - 1];
      OverlayScope(values, front, t);
      var s := InScope(front, t);
      assert (s + [last])[..|s|] == s;
    }
  }

  lemma {:induction false} DefaultAt(definitions: seq<Definition>, i: nat)
    requires DistinctKeys(definitions) && i < |definitions|
    ensures definitions[i].key in Defaults(definitions)
    ensures Defaults(definitions)[definitions[i].key] == definitions[i].default
  {
    if i < |definitions| - 1 {
      DefaultAt(definitions[..|definitions| - 1], i);
    }
  }

  lemma {:induction false} EditedOverlay(
    base: map<string, ConfigValue>, definitions: seq<Definition>, values: map<string, ConfigValue>, t: Target,
    k: string, i: nat)
    requires DistinctKeys(definitions) && i < |definitions|
    requires definitions[i].key == k && Editable(definitions[i], t)
    ensures var after := Overlay(base, Edited(definitions, values, t), t);
            k in after && after[k] == Chosen(values, definitions[i])
  {
    EditedPush(base, definitions, values, t);
    if i < |definitions| - 1 {
      EditedOverlay(base, definitions[..|definitions| - 1], values, t, k, i);
    }
  }

  lemma EditedPush(
    base: map<string, ConfigValue>, definitions: seq<Definition>, values: map<string, ConfigValue>, t: Target)
    requires definitions != []
    ensures var last := definitions[|definitions| - 1];
            var before := Overlay(base, Edited(definitions[..|definitions| - 1], values, t), t);
            Overlay(base, Edited(definitions, values, t), t) ==
            if Editable(last, t) then before[last.key := Chosen(values, last)] else before
  {
    var front, last := definitions[..|definitions| - 1], definitions[|definitions| - 1];
    var before := Edited(front, values, t);
    var e := Entry(last.key, t.scope, t.scopeId, Chosen(values, last));
    assert (before + [e])[..|before|] == before;
  }

  lemma {:induction false} UneditedOverlay(
    base: map<string, ConfigValue>, definitions: seq<Definition>, values: map<string, ConfigValue>, t: Target,
    k: string)
    requires forall i :: 0 <= i < |definitions| && definitions[i].key == k ==> !Editable(definitions[i], t)
    ensures var after := Overlay(base, Edited(definitions, values, t), t);
            (k in after <==> k in base) && (k in after ==> after[k] == base[k])
  {
    if definitions != [] {
      var front := definitions[..|definitions| - 1];
      EditedPush(base, definitions, values, t);
      assert forall i :: 0 <= i < |front| ==> front[i] == definitions[i];
      UneditedOverlay(base, front, values, t, k);
    }
  }

  lemma {:induction false} ReadSaved(
    entries: seq<Entry>, definitions: seq<Definition>, values: map<string, ConfigValue>, t: Target)
    ensures Read(definitions, Save(entries, definitions, values, t), t) ==
            Overlay(Defaults(definitions), Edited(definitions, values, t), t)
  {
    OverlayScope(Defaults(definitions), Save(entries, definitions, values, t), t);
    SavedScope(entries, definitions, values, t);
  }

  lemma {:induction false} DefaultKeys(definitions: seq<Definition>, k: string)
    ensures k in Defaults(definitions) <==> exists i :: 0 <= i < |definitions| && definitions[i].key == k
  {
    if definitions != [] {
      var front := definitions[..|definitions| - 1];
      DefaultKeys(front, k);
      if i :| 0 <= i < |definitions| && definitions[i].key == k {
        assert i < |front| ==> front[i].key == k;
      }
      if i :| 0 <= i < |front| && front[i].key == k {
        assert definitions[i].key == k;
      }
    }
  }

  /**
  Reading a draft back, for every key whatsoever: the edited value of a key the scope may edit, if
  there is one that is not null, the default of any other defined key, and nothing for a key that is
  not defined.
  */
  lemma {:induction false} ReadBack(
    entries: seq<Entry>, definitions: seq<Definition>, values: map<string, ConfigValue>, t: Target, k: string)
    requires DistinctKeys(definitions)
    ensures var after := Read(definitions, Save(entries, definitions, values, t), t);
            (k in after <==> exists i :: 0 <= i < |definitions| && definitions[i].key == k) &&
            forall i :: 0 <= i < |definitions| && definitions[i].key == k ==>
              after[k] == if !definitions[i].secret && t.scope in definitions[i].scopes && k in values &&
                             values[k] != NullValue then values[k]
                          else definitions[i].default
  {
    ReadSaved(entries, definitions, values, t);
    DefaultKeys(definitions, k);
    if i :| 0 <= i < |definitions| && definitions[i].key == k && Editable(definitions[i], t) {
      EditedOverlay(Defaults(definitions), definitions, values, t, k, i);
    } else {
      UneditedOverlay(Defaults(definitions), definitions, values, t, k);
    }
    if i :| 0 <= i < |definitions| && definitions[i].key == k {
      DefaultAt(definitions, i);
    }
  }

  /** The edited value itself is read back unless it is a null over a default that is not. */
  lemma {:induction false} EditedValueReadBack(
    entries: seq<Entry>, definitions: seq<Definition>, values: map<string, ConfigValue>, t: Target, i: nat)
    requires DistinctKeys(definitions) && i < |definitions| && Editable(definitions[i], t)
    requires definitions[i].key in values
    ensures var d, after := definitions[i], Read(definitions, Save(entries, definitions, values, t), t);
            d.key in after &&
            (after[d.key] == values[d.key] <==> (values[d.key] == NullValue ==> d.default == NullValue))
  {
    ReadBack(entries, definitions, values, t, definitions[i].key);
  }

  lemma {:induction false} EditedSame(
    definitions: seq<Definition>, values: map<string, ConfigValue>, values': map<string, ConfigValue>, t: Target)
    requires forall i :: 0 <= i < |definitions| && Editable(definitions[i], t) ==>
               Chosen(values, definitions[i]) == Chosen(values', definitions[i])
    ensures Edited(definitions, values, t) == Edited(definitions, values', t)
  {
    if definitions != [] {
      assert forall i :: 0 <= i < |definitions| - 1 ==> definitions[..|definitions| - 1][i] == definitions[i];
      EditedSame(definitions[..|definitions| - 1], values, values', t);
    }
  }

  /** Opening a saved draft and saving it without edits gives the same draft. */
  lemma {:induction false} ReopenAndSave(
    entries: seq<Entry>, definitions: seq<Definition>, values: map<string, ConfigValue>, t: Target)
    requires DistinctKeys(definitions)
    ensures var draft := Save(entries, definitions, values, t);
            Save(draft, definitions, Read(definitions, draft, t), t) == draft
  {
    var draft := Save(entries, definitions, values, t);
    var read := Read(definitions, draft, t);
    SaveAgain(entries, definitions, values, read, t);
    forall i | 0 <= i < |definitions| && Editable(definitions[i], t)
      ensures Chosen(read, definitions[i]) == Chosen(values, definitions[i])
    {
      ReadBack(entries, definitions, values, t, definitions[i].key);
    }
    EditedSame(definitions, read, values, t);
  }

  /** A draft can be built for the system and for every target with an identifier, and for no other. */
  lemma DraftBuilt(
    published: Option<seq<Entry>>, definitions: seq<Definition>, values: map<string, ConfigValue>, t: Target)
    ensures CreateDraft(published, definitions, values, t).Ok? <==>
            t.scope == SystemScope || (t.scopeId != None && t.scopeId != Some(""))
  {
  }

  /**
  The laws of drafts: for every target the server takes -- the system without an identifier, any
  other scope with one -- there is a draft, with no slot twice, other scopes as published, every
  defined key readable in it, and saving the same edits over it changes nothing.
  */
  lemma {:induction false} DraftLaws(
    published: Option<seq<Entry>>, definitions: seq<Definition>, values: map<string, ConfigValue>, t: Target,
    u: Target, i: nat)
    returns (draft: seq<Entry>)
    requires NoDuplicates(Entries(published)) && DistinctKeys(definitions) && i < |definitions|
    requires if t.scope == SystemScope then t.scopeId == None else t.scopeId != None && t.scopeId != Some("")
    ensures CreateDraft(published, definitions, values, t) == Ok(draft)
    ensures NoDuplicates(draft)
    ensures u != t ==> InScope(draft, u) == InScope(if published.Some? then published.value else [], u)
    ensures var d, read := definitions[i], Read(definitions, draft, t);
            d.key in read &&
            read[d.key] == if !d.secret && t.scope in d.scopes && d.key in values && values[d.key] != NullValue then
                             values[d.key]
                           else d.default
    ensures CreateDraft(Some(draft), definitions, values, t) == Ok(draft)
  {
    var entries := Entries(published);
    draft := Save(entries, definitions, values, t);
    SaveDistinct(entries, definitions, values, t);
    if u != t {
      OtherScopesUnchanged(entries, definitions, values, t, u);
    }
    ReadBack(entries, definitions, values, t, definitions[i].key);
    SaveAgain(entries, definitions, values, values, t);
  }

  // ---------------------------------------------------------------- saving without edits

  /** The last value a scope gives a key. */
  function ValueAt(entries: seq<Entry>, t: Target, k: string): Option<ConfigValue> {
    if entries == [] then None else
    var last := entries[|entries| - 1];
    if In(last, t) && last.key == k then Some(last.value) else ValueAt(entries[..|entries| - 1], t, k)
  }

  lemma {:induction false} OverlayAt(values: map<string, ConfigValue>, entries: seq<Entry>, t: Target, k: string)
    ensures var after := Overlay(values, entries, t);
            match ValueAt(entries, t, k)
            case Some(v) => k in after && after[k] == v
            case None => (k in after <==> k in values) && (k in after ==> after[k] == values[k])
  {
    if entries != [] {
      OverlayAt(values, entries[..|entries| - 1], t, k);
    }
  }

  lemma {:induction false} ValueAtEntry(entries: seq<Entry>, t: Target, k: string) returns (i: nat)
    requires ValueAt(entries, t, k).Some?
    ensures i < |entries| && In(entries[i], t) && entries[i].key == k
    ensures entries[i].value == ValueAt(entries, t, k).value
  {
    i := |entries| - 1;
    if !(In(entries[i], t) && entries[i].key == k) {
      i := ValueAtEntry(entries[..|entries| - 1], t, k);
    }
  }

  lemma {:induction false} FindKey(definitions: seq<Definition>, i: nat)
    requires DistinctKeys(definitions) && i < |definitions|
    ensures Find(definitions, definitions[i].key) == Some(definitions[i])
  {
    if i < |definitions| - 1 {
      FindKey(definitions[..|definitions| - 1], i);
    }
  }

  lemma {:induction false} FoundKey(definitions: seq<Definition>, k: string) returns (i: nat)
    requires Find(definitions, k).Some?
    ensures i < |definitions| && definitions[i].key == k && Find(definitions, k) == Some(definitions[i])
  {
    i := |definitions| - 1;
    if definitions[i].key != k {
      i := FoundKey(definitions[..|definitions| - 1], k);
    }
  }

  /** Values of a checked snapshot belong to keys their scope may edit, and are never null. */
  lemma {:induction false} SnapshotValue(definitions: seq<Definition>, entries: seq<Entry>, t: Target, k: string)
    returns (i: nat)
    requires Snapshot(definitions, entries) && ValueAt(entries, t, k).Some?
    ensures i < |definitions| && definitions[i].key == k && Editable(definitions[i], t)
    ensures ValueAt(entries, t, k) != Some(NullValue)
  {
    var n := ValueAtEntry(entries, t, k);
    assert ValidateEntry(definitions, entries[n]) == None;
    i := FoundKey(definitions, k);
  }

  /** What the page reads for a key is its stored value or its default. */
  lemma {:induction false} ReadAt(definitions: seq<Definition>, entries: seq<Entry>, t: Target, i: nat)
    requires DistinctKeys(definitions) && i < |definitions|
    ensures var read, k := Read(definitions, entries, t), definitions[i].key;
            k in read && read[k] == match ValueAt(entries, t, k) case Some(v) => v case None => definitions[i].default
  {
    DefaultAt(definitions, i);
    OverlayAt(Defaults(definitions), entries, t, definitions[i].key);
  }

  function Unedited(entries: seq<Entry>, definitions: seq<Definition>, t: Target): seq<Entry> {
    Save(entries, definitions, Read(definitions, entries, t), t)
  }

  lemma {:induction false} UneditedRead(definitions: seq<Definition>, entries: seq<Entry>, t: Target, k: string)
    requires DistinctKeys(definitions) && Snapshot(definitions, entries)
    ensures var before, after := Read(definitions, entries, t), Read(definitions, Unedited(entries, definitions, t), t);
            (k in before <==> k in after) && (k in before ==> before[k] == after[k])
  {
    ReadBack(entries, definitions, Read(definitions, entries, t), t, k);
    DefaultKeys(definitions, k);
    OverlayAt(Defaults(definitions), entries, t, k);
    if ValueAt(entries, t, k).Some? {
      var i := SnapshotValue(definitions, entries, t, k);
    } else if i :| 0 <= i < |definitions| && definitions[i].key == k {
      DefaultAt(definitions, i);
    }
  }

  /** Opening a scope of a checked snapshot and saving it unedited leaves what every scope shows as it was. */
  lemma {:induction false} UneditedSaveShowsTheSame(
    definitions: seq<Definition>, entries: seq<Entry>, t: Target, u: Target)
    requires DistinctKeys(definitions) && Snapshot(definitions, entries)
    ensures Read(definitions, Unedited(entries, definitions, t), u) == Read(definitions, entries, u)
  {
    var draft := Unedited(entries, definitions, t);
    if u == t {
      forall k
        ensures k in Read(definitions, draft, t) <==> k in Read(definitions, entries, t)
        ensures k in Read(definitions, draft, t) ==> Read(definitions, draft, t)[k] == Read(definitions, entries, t)[k]
      {
        UneditedRead(definitions, entries, t, k);
      }
    } else {
      OtherScopesUnchanged(entries, definitions, Read(definitions, entries, t), t, u);
      OverlayScope(Defaults(definitions), draft, u);
      OverlayScope(Defaults(definitions), entries, u);
    }
  }

  // ---------------------------------------------------------------- the effective configuration

  function PublicDefaults(definitions: seq<Definition>): map<string, ConfigValue> {
    if definitions == [] then map[] else
    var before, last := PublicDefaults(definitions[..|definitions| - 1]), definitions[|definitions| - 1];
    if last.secret then before else before[last.key := last.default]
  }

  /** The resolved values: defaults overlaid by every scope of the chain, from broad to narrow. */
  function Effective(definitions: seq<Definition>, entries: seq<Entry>, chain: seq<Target>): map<string, ConfigValue> {
    if chain == [] then PublicDefaults(definitions)
    else Overlay(Effective(definitions, entries, chain[..|chain| - 1]), entries, chain[|chain| - 1])
  }

  lemma {:induction false} PublicDefaultAt(definitions: seq<Definition>, i: nat)
    requires DistinctKeys(definitions) && i < |definitions| && !definitions[i].secret
    ensures definitions[i].key in PublicDefaults(definitions)
    ensures PublicDefaults(definitions)[definitions[i].key] == definitions[i].default
  {
    if i < |definitions| - 1 {
      PublicDefaultAt(definitions[..|definitions| - 1], i);
    }
  }

  lemma {:induction false} EffectiveHas(definitions: seq<Definition>, entries: seq<Entry>, chain: seq<Target>, i: nat)
    requires DistinctKeys(definitions) && i < |definitions| && !definitions[i].secret
    ensures definitions[i].key in Effective(definitions, entries, chain)
  {
    if chain == [] {
      PublicDefaultAt(definitions, i);
    } else {
      EffectiveHas(definitions, entries, chain[..|chain| - 1], i);
      OverlayAt(Effective(definitions, entries, chain[..|chain| - 1]), entries, chain[|chain| - 1], definitions[i].key);
    }
  }

  lemma {:induction false} ValueAtAppend(a: seq<Entry>, b: seq<Entry>, t: Target, k: string)
    ensures ValueAt(a + b, t, k) == if ValueAt(b, t, k).Some? then ValueAt(b, t, k) else ValueAt(a, t, k)
  {
    if b == [] {
      assert a + b == a;
    } else {
      ValueAtAppend(a, b[..|b| - 1], t, k);
      assert (a + b)[..|a + b| - 1] == a + b[..|b| - 1];
    }
  }

  lemma {:induction false} UntouchedValueAt(entries: seq<Entry>, t: Target, u: Target, k: string)
    ensures ValueAt(Untouched(entries, t), u, k) == if u == t then None else ValueAt(entries, u, k)
  {
    if entries != [] {
      var front, last := entries[..|entries| - 1], entries[|entries| - 1];
      UntouchedValueAt(front, t, u, k);
      var rest := Untouched(front, t);
      assert (rest + [last])[..|rest|] == rest;
    }
  }

  lemma {:induction false} EditedValueAt(
    definitions: seq<Definition>, values: map<string, ConfigValue>, t: Target, u: Target, k: string)
    requires DistinctKeys(definitions)
    ensures ValueAt(Edited(definitions, values, t), u, k) ==
            match Find(definitions, k)
            case Some(d) => if u == t && Editable(d, t) then Some(Chosen(values, d)) else None
            case None => None
  {
    if definitions != [] {
      var front, last := definitions[..|definitions| - 1], definitions[|definitions| - 1];
      EditedValueAt(front, values, t, u, k);
      var before := Edited(front, values, t);
      var e := Entry(last.key, t.scope, t.scopeId, Chosen(values, last));
      assert (before + [e])[..|before|] == before;
      if last.key == k && Find(front, k).Some? {
        var i := FoundKey(front, k);
      }
    }
  }

  /** What an unedited save stores: in the saved scope every editable key, elsewhere the same as before. */
  lemma {:induction false} UneditedValueAt(
    definitions: seq<Definition>, entries: seq<Entry>, t: Target, u: Target, i: nat)
    requires DistinctKeys(definitions) && Snapshot(definitions, entries) && i < |definitions|
    ensures var k := definitions[i].key;
            ValueAt(Unedited(entries, definitions, t), u, k) ==
            if u == t && Editable(definitions[i], t) && ValueAt(entries, t, k) == None then Some(definitions[i].default)
            else ValueAt(entries, u, k)
  {
    var k, read := definitions[i].key, Read(definitions, entries, t);
    ValueAtAppend(Untouched(entries, t), Edited(definitions, read, t), u, k);
    UntouchedValueAt(entries, t, u, k);
    EditedValueAt(definitions, read, t, u, k);
    FindKey(definitions, i);
    ReadAt(definitions, entries, t, i);
    if ValueAt(entries, t, k).Some? {
      var j := SnapshotValue(definitions, entries, t, k);
    }
  }

  /** The key keeps its effective value when the scope `chain[j]` is saved unedited. */
  ghost predicate Unaffected(definitions: seq<Definition>, entries: seq<Entry>, chain: seq<Target>, j: nat, i: nat)
    requires j < |chain| && i < |definitions| && DistinctKeys(definitions) && !definitions[i].secret
  {
    var k := definitions[i].key;
    EffectiveHas(definitions, entries, chain[..j], i);
    !Editable(definitions[i], chain[j]) ||
    (exists m :: j <= m < |chain| && ValueAt(entries, chain[m], k).Some?) ||
    Effective(definitions, entries, chain[..j])[k] == definitions[i].default
  }

  /**
  Saving a scope without edits is not neutral: every key the scope may edit is pinned to the
  default it displayed.  The effective value stays, for all chains of scopes, exactly when the key
  cannot be edited there, is set there or in a narrower scope, or the broader scopes give the
  default anyway.
  */
  lemma {:induction false} UneditedSavePins(
    definitions: seq<Definition>, entries: seq<Entry>, chain: seq<Target>, j: nat, i: nat)
    requires DistinctKeys(definitions) && Snapshot(definitions, entries)
    requires j < |chain| && i < |definitions| && !definitions[i].secret
    requires forall m :: 0 <= m < |chain| && m != j ==> chain[m] != chain[j]
    ensures var k, draft := definitions[i].key, Unedited(entries, definitions, chain[j]);
            k in Effective(definitions, entries, chain) && k in Effective(definitions, draft, chain) &&
            (Effective(definitions, draft, chain)[k] == Effective(definitions, entries, chain)[k] <==>
             Unaffected(definitions, entries, chain, j, i))
    decreases |chain|
  {
    var k, draft := definitions[i].key, Unedited(entries, definitions, chain[j]);
    var front, last := chain[..|chain| - 1], chain[|chain| - 1];
    EffectiveHas(definitions, entries, chain, i);
    EffectiveHas(definitions, draft, chain, i);
    EffectiveHas(definitions, entries, front, i);
    EffectiveHas(definitions, draft, front, i);
    OverlayAt(Effective(definitions, entries, front), entries, last, k);
    OverlayAt(Effective(definitions, draft, front), draft, last, k);
    UneditedValueAt(definitions, entries, chain[j], last, i);
    if j == |front| {
      SameBefore(definitions, entries, front, chain[j], i);
    } else {
      UneditedSavePins(definitions, entries, front, j, i);
      assert front[..j] == chain[..j];
      assert forall m :: j <= m < |front| ==> front[m] == chain[m];
    }
  }

  lemma {:induction false} SameBefore(
    definitions: seq<Definition>, entries: seq<Entry>, chain: seq<Target>, t: Target, i: nat)
    requires DistinctKeys(definitions) && Snapshot(definitions, entries) && i < |definitions| && !definitions[i].secret
    requires forall m :: 0 <= m < |chain| ==> chain[m] != t
    ensures var k, draft := definitions[i].key, Unedited(entries, definitions, t);
            k in Effective(definitions, entries, chain) && k in Effective(definitions, draft, chain) &&
            Effective(definitions, draft, chain)[k] == Effective(definitions, entries, chain)[k]
  {
    var k, draft := definitions[i].key, Unedited(entries, definitions, t);
    if chain == [] {
      PublicDefaultAt(definitions, i);
    } else {
      var front, last := chain[..|chain| - 1], chain[|chain| - 1];
      SameBefore(definitions, entries, front, t, i);
      OverlayAt(Effective(definitions, entries, front), entries, last, k);
      OverlayAt(Effective(definitions, draft, front), draft, last, k);
      UneditedValueAt(definitions, entries, t, last, i);
    }
  }

  /** A whole number with default 3, for the system and for tenants. */
  const Limit := Definition(
    "limit", NumberValue(3.0, true), {SystemScope, TenantScope}, false, IntegerKind, None, None, [])

  /** A limit set for the whole system, and a tenant's page saved without touching anything: the limit is undone. */
  lemma UneditedSaveUndoesLimit()
    ensures var d := Limit;
            var entries := [Entry("limit", SystemScope, None, NumberValue(5.0, true))];
            var tenant := Target(TenantScope, Some("t"));
            var chain := [Target(SystemScope, None), tenant];
            Snapshot([d], entries) && DistinctKeys([d]) && !Unaffected([d], entries, chain, 1, 0)
  {
    var d := Limit;
    var entries := [Entry("limit", SystemScope, None, NumberValue(5.0, true))];
    var chain := [Target(SystemScope, None), Target(TenantScope, Some("t"))];
    assert entries[..0] == [] && [d][..0] == [];
    assert chain[..1] == [chain[0]] && chain[..1][..0] == [];
    assert ValueAt(entries, chain[1], "limit") == None;
    EffectiveHas([d], entries, chain[..1], 0);
    OverlayAt(Effective([d], entries, []), entries, chain[0], "limit");
    assert ValueAt(entries, chain[0], "limit") == Some(NumberValue(5.0, true));
  }

  /** What the registry asks of a value. */
  ghost predicate Fits(d: Definition, value: ConfigValue) {
    && (match d.kind
        case StringKind => value.TextValue?
        case BooleanKind => value.FlagValue?
        case IntegerKind => value.NumberValue? && value.whole
        case NumberKind => value.NumberValue?
        case StringListKind => value.ListValue? && forall i :: 0 <= i < |value.items| ==> value.items[i].TextValue?
        case SecretKind => false)
    && (value.NumberValue? && d.minimum.Some? ==> d.minimum.value <= value.number)
    && (value.NumberValue? && d.maximum.Some? ==> value.number <= d.maximum.value)
    && (d.options != [] ==> exists i :: 0 <= i < |d.options| && value == TextValue(d.options[i]))
  }

  lemma ValueAccepted(d: Definition, value: ConfigValue)
    ensures ValueError(d, value) == None <==> Fits(d, value)
  {
    if value.TextValue? && value.text in d.options {
      var i :| 0 <= i < |d.options| && d.options[i] == value.text;
      assert value == TextValue(d.options[i]);
    }
  }

  /** A draft of a checked snapshot is accepted if and only if the value chosen for every editable key fits. */
  lemma {:induction false} DraftAccepted(
    definitions: seq<Definition>, entries: seq<Entry>, values: map<string, ConfigValue>, t: Target)
    requires DistinctKeys(definitions) && Snapshot(definitions, entries)
    requires if t.scope == SystemScope then t.scopeId.None? else t.scopeId.Some?
    ensures Snapshot(definitions, Save(entries, definitions, values, t)) <==>
            forall i :: 0 <= i < |definitions| && !definitions[i].secret && t.scope in definitions[i].scopes ==>
              Fits(definitions[i], if definitions[i].key in values && values[definitions[i].key] != NullValue then
                                     values[definitions[i].key]
                                   else definitions[i].default)
  {
    EditsAccepted(definitions, entries, values, t);
    forall i | 0 <= i < |definitions| && Editable(definitions[i], t)
      ensures ValueError(definitions[i], Chosen(values, definitions[i])) == None <==>
              Fits(definitions[i], Chosen(values, definitions[i]))
    {
      ValueAccepted(definitions[i], Chosen(values, definitions[i]));
    }
  }

  lemma {:induction false} EditsAccepted(
    definitions: seq<Definition>, entries: seq<Entry>, values: map<string, ConfigValue>, t: Target)
    requires DistinctKeys(definitions) && Snapshot(definitions, entries)
    requires if t.scope == SystemScope then t.scopeId.None? else t.scopeId.Some?
    ensures Snapshot(definitions, Save(entries, definitions, values, t)) <==>
            forall i :: 0 <= i < |definitions| && Editable(definitions[i], t) ==>
              ValueError(definitions[i], Chosen(values, definitions[i])) == None
  {
    var draft := Save(entries, definitions, values, t);
    SaveDistinct(entries, definitions, values, t);
    var a, b := Untouched(entries, t), Edited(definitions, values, t);
    forall n | 0 <= n < |a| ensures ValidateEntry(definitions, a[n]) == None {
      UntouchedMembers(entries, t, a[n]);
      var m :| 0 <= m < |entries| && entries[m] == a[n];
    }
    forall i | 0 <= i < |definitions| && Editable(definitions[i], t)
      ensures var e := Entry(definitions[i].key, t.scope, t.scopeId, Chosen(values, definitions[i]));
              e in b && ValidateEntry(definitions, e) == ValueError(definitions[i], e.value)
    {
      var e := Entry(definitions[i].key, t.scope, t.scopeId, Chosen(values, definitions[i]));
      EditedMembers(definitions, values, t, e);
      FindKey(definitions, i);
    }
    if Snapshot(definitions, draft) {
      forall i | 0 <= i < |definitions| && Editable(definitions[i], t)
        ensures ValueError(definitions[i], Chosen(values, definitions[i])) == None
      {
        var e := Entry(definitions[i].key, t.scope, t.scopeId, Chosen(values, definitions[i]));
        var n :| 0 <= n < |b| && b[n] == e;
        assert draft[|a| + n] == e;
      }
    }
    forall n | 0 <= n < |b|
      ensures exists i :: 0 <= i < |definitions| && Editable(definitions[i], t) &&
                ValidateEntry(definitions, b[n]) == ValueError(definitions[i], Chosen(values, definitions[i]))
    {
      EditedMembers(definitions, values, t, b[n]);
    }
  }
}
