/**
What the editor's functions compute, key by key: the target of the page, the entries of a draft,
the value of a key in one scope and along a chain of scopes, and which entries are refused and why.
*/
module ConfigurationLaws {
  import opened Wrappers
  import opened ConfigurationDraft
  import Browser = AgentSelection

  // ---------------------------------------------------------------- the page's target

  /** The identities the page knows, as far as they are loaded. */
  datatype Identity = Identity(tenantId: Option<string>, agentId: Option<string>, userId: Option<string>)

  function PageTarget(scope: Scope, identity: Identity, customScopeId: string): Target {
    match scope
    case SystemScope => Target(SystemScope, None)
    case TenantScope => Target(TenantScope, identity.tenantId)
    case AgentScope => Target(AgentScope, identity.agentId)
    case UserScope => Target(UserScope, identity.userId)
    case ChannelScope => Target(ChannelScope, Browser.Normalize(Some(customScopeId)))
  }

  /**
  From its own targets the page builds every draft whose target the server takes: the system always,
  a tenant, agent or user once its identity is known, a channel unless the field is blank.
  */
  lemma PageDrafts(
    published: Option<seq<Entry>>, definitions: seq<Definition>, values: map<string, ConfigValue>, scope: Scope,
    identity: Identity, customScopeId: string)
    requires Some("") !in {identity.tenantId, identity.agentId, identity.userId}
    ensures var t := PageTarget(scope, identity, customScopeId);
            t.scope == scope &&
            (CreateDraft(published, definitions, values, t).Ok? <==>
             match scope
             case SystemScope => t.scopeId == None
             case TenantScope => identity.tenantId != None
             case AgentScope => identity.agentId != None
             case UserScope => identity.userId != None
             case ChannelScope => !Browser.AllWhite(customScopeId))
  {
    Browser.NormalizeExact(customScopeId);
    DraftBuilt(published, definitions, values, PageTarget(scope, identity, customScopeId));
  }

  // ---------------------------------------------------------------- the entries of a draft

  /** A draft has the entries of all other targets, and one entry for every key its scope may edit. */
  lemma {:induction false} DraftEntries(
    entries: seq<Entry>, definitions: seq<Definition>, values: map<string, ConfigValue>, t: Target, e: Entry)
    ensures e in Save(entries, definitions, values, t) <==>
            (e in entries && (e.scope != t.scope || e.scopeId != t.scopeId)) ||
            (e.scope == t.scope && e.scopeId == t.scopeId &&
             exists i :: 0 <= i < |definitions| && definitions[i].key == e.key &&
               !definitions[i].secret && t.scope in definitions[i].scopes &&
               e.value == if e.key in values && values[e.key] != NullValue then values[e.key]
                          else definitions[i].default)
  {
    UntouchedMembers(entries, t, e);
    EditedMembers(definitions, values, t, e);
    if e in Edited(definitions, values, t) {
      var i :| 0 <= i < |definitions| && Editable(definitions[i], t) &&
        e == Entry(definitions[i].key, t.scope, t.scopeId, Chosen(values, definitions[i]));
      assert definitions[i].key == e.key;
    }
  }

  /** Selecting the entries of a target, or of all others, keeps each one in place. */
  lemma FiltersInOrder(entries: seq<Entry>, e: Entry, t: Target)
    ensures InScope([], t) == [] && Untouched([], t) == []
    ensures e.scope == t.scope && e.scopeId == t.scopeId ==>
              InScope(entries + [e], t) == InScope(entries, t) + [e] &&
              Untouched(entries + [e], t) == Untouched(entries, t)
    ensures e.scope != t.scope || e.scopeId != t.scopeId ==>
              InScope(entries + [e], t) == InScope(entries, t) &&
              Untouched(entries + [e], t) == Untouched(entries, t) + [e]
  {
    FilterPush(entries, e, t);
  }

  // ---------------------------------------------------------------- the value of a key

  /** The n-th entry is the last one of its key and target. */
  ghost predicate Decides(entries: seq<Entry>, n: nat, t: Target, k: string)
    requires n < |entries|
  {
    && entries[n].key == k && entries[n].scope == t.scope && entries[n].scopeId == t.scopeId
    && forall m :: n < m < |entries| ==>
         !(entries[m].key == k && entries[m].scope == t.scope && entries[m].scopeId == t.scopeId)
  }

  ghost predicate Gives(entries: seq<Entry>, t: Target, k: string, v: ConfigValue) {
    exists n: nat :: n < |entries| && Decides(entries, n, t, k) && entries[n].value == v
  }

  /** The value of a key in one target is that of its last entry there. */
  lemma {:induction false} ValueExact(entries: seq<Entry>, t: Target, k: string, v: ConfigValue)
    ensures ValueAt(entries, t, k) == Some(v) <==> Gives(entries, t, k, v)
  {
    if entries != [] {
      var front, last := entries[..|entries| - 1], entries[|entries| - 1];
      ValueExact(front, t, k, v);
      if last.key == k && last.scope == t.scope && last.scopeId == t.scopeId {
        assert Decides(entries, |front|, t, k);
      } else {
        forall n: nat | n < |front| ensures Decides(front, n, t, k) <==> Decides(entries, n, t, k) {
          StillDecides(entries, n, t, k);
        }
      }
    }
  }

  lemma StillDecides(entries: seq<Entry>, n: nat, t: Target, k: string)
    requires n < |entries| - 1
    requires var last := entries[|entries| - 1]; last.key != k || last.scope != t.scope || last.scopeId != t.scopeId
    ensures Decides(entries[..|entries| - 1], n, t, k) <==> Decides(entries, n, t, k)
  {
    var front := entries[..|entries| - 1];
    assert forall m :: n < m < |front| ==> front[m] == entries[m];
  }

  /** What the page shows of a scope: the value of each key there, else the default of each defined key. */
  lemma {:induction false} ReadExact(definitions: seq<Definition>, entries: seq<Entry>, t: Target, k: string)
    requires DistinctKeys(definitions)
    ensures var read := Read(definitions, entries, t);
            match ValueAt(entries, t, k)
            case Some(v) => k in read && read[k] == v
            case None =>
              (k in read <==> exists i :: 0 <= i < |definitions| && definitions[i].key == k) &&
              forall i :: 0 <= i < |definitions| && definitions[i].key == k ==> read[k] == definitions[i].default
  {
    OverlayAt(Defaults(definitions), entries, t, k);
    DefaultKeys(definitions, k);
    if i :| 0 <= i < |definitions| && definitions[i].key == k {
      DefaultAt(definitions, i);
    }
  }

  /** No scope of the chain after the m-th sets the key, but that one does. */
  ghost predicate Narrowest(entries: seq<Entry>, chain: seq<Target>, m: nat, k: string)
    requires m < |chain|
  {
    ValueAt(entries, chain[m], k) != None &&
    forall n :: m < n < |chain| ==> ValueAt(entries, chain[n], k) == None
  }

  /** The narrowest scope of the chain that sets the key gives the value; if none does, the default is taken. */
  lemma {:induction false} EffectiveExact(
    definitions: seq<Definition>, entries: seq<Entry>, chain: seq<Target>, i: nat)
    requires DistinctKeys(definitions) && i < |definitions| && !definitions[i].secret
    ensures var k, values := definitions[i].key, Effective(definitions, entries, chain);
            k in values &&
            ((forall m :: 0 <= m < |chain| ==> ValueAt(entries, chain[m], k) == None) ==>
               values[k] == definitions[i].default) &&
            (forall m :: 0 <= m < |chain| && Narrowest(entries, chain, m, k) ==>
               ValueAt(entries, chain[m], k) == Some(values[k]))
  {
    if chain == [] {
      PublicDefaultAt(definitions, i);
    } else {
      var front, last := chain[..|chain| - 1], chain[|chain| - 1];
      EffectiveExact(definitions, entries, front, i);
      OverlayAt(Effective(definitions, entries, front), entries, last, definitions[i].key);
      assert forall m :: 0 <= m < |front| ==> front[m] == chain[m];
    }
  }

  /** Over a checked snapshot exactly the defined public keys have an effective value. */
  lemma {:induction false} EffectiveKeys(
    definitions: seq<Definition>, entries: seq<Entry>, chain: seq<Target>, k: string)
    requires DistinctKeys(definitions) && Snapshot(definitions, entries)
    ensures k in Effective(definitions, entries, chain) <==>
            exists i :: 0 <= i < |definitions| && definitions[i].key == k && !definitions[i].secret
  {
    if chain == [] {
      PublicKeys(definitions, k);
    } else {
      var front, last := chain[..|chain| - 1], chain[|chain| - 1];
      EffectiveKeys(definitions, entries, front, k);
      OverlayAt(Effective(definitions, entries, front), entries, last, k);
      if ValueAt(entries, last, k).Some? {
        var i := SnapshotValue(definitions, entries, last, k);
      }
    }
  }

  lemma {:induction false} PublicKeys(definitions: seq<Definition>, k: string)
    ensures k in PublicDefaults(definitions) <==>
            exists i :: 0 <= i < |definitions| && definitions[i].key == k && !definitions[i].secret
  {
    if definitions != [] {
      var front := definitions[..|definitions| - 1];
      PublicKeys(front, k);
      if i :| 0 <= i < |definitions| && definitions[i].key == k && !definitions[i].secret {
        assert i < |front| ==> front[i].key == k && !front[i].secret;
      }
      if i :| 0 <= i < |front| && front[i].key == k && !front[i].secret {
        assert definitions[i].key == k;
      }
    }
  }

  // ---------------------------------------------------------------- which entries are refused

  /** An entry is accepted if and only if its key is public, its target fits the key, and its value fits. */
  lemma {:induction false} EntryAccepted(definitions: seq<Definition>, e: Entry)
    requires DistinctKeys(definitions)
    ensures ValidateEntry(definitions, e) == None <==>
            exists i :: 0 <= i < |definitions| && definitions[i].key == e.key && !definitions[i].secret &&
              e.scope in definitions[i].scopes && (e.scope == SystemScope <==> e.scopeId == None) &&
              Fits(definitions[i], e.value)
  {
    if Find(definitions, e.key).Some? {
      var i := FoundKey(definitions, e.key);
      ValueAccepted(definitions[i], e.value);
    }
    if i :| 0 <= i < |definitions| && definitions[i].key == e.key {
      FindKey(definitions, i);
    }
  }

  /** Why an entry is refused: the first check that fails, in their order. */
  lemma {:induction false} EntryRefused(definitions: seq<Definition>, e: Entry, i: nat)
    requires DistinctKeys(definitions) && i < |definitions| && definitions[i].key == e.key
    ensures var d := definitions[i];
            var ofKind := Fits(d.(minimum := None, maximum := None, options := []), e.value);
            match ValidateEntry(definitions, e)
            case None => true
            case Some(UnknownKey) => false
            case Some(SecretKey) => d.secret
            case Some(ScopeUnsupported) => !d.secret && e.scope !in d.scopes
            case Some(SystemScopeWithId) =>
              !d.secret && e.scope in d.scopes && e.scope == SystemScope && e.scopeId != None
            case Some(ScopeWithoutId) =>
              !d.secret && e.scope in d.scopes && e.scope != SystemScope && e.scopeId == None
            case Some(WrongKind) => !ofKind
            case Some(TooSmall) => ofKind && e.value.NumberValue? && d.minimum.Some? && e.value.number < d.minimum.value
            case Some(TooLarge) => ofKind && e.value.NumberValue? && d.maximum.Some? && e.value.number > d.maximum.value
            case Some(NotAnOption) =>
              ofKind && d.options != [] && forall m :: 0 <= m < |d.options| ==> e.value != TextValue(d.options[m])
  {
    FindKey(definitions, i);
  }

  /** A key that nobody defines is unknown. */
  lemma {:induction false} UnknownRefused(definitions: seq<Definition>, e: Entry)
    requires forall i :: 0 <= i < |definitions| ==> definitions[i].key != e.key
    ensures ValidateEntry(definitions, e) == Some(UnknownKey)
  {
    if Find(definitions, e.key).Some? {
      var i := FoundKey(definitions, e.key);
    }
  }
}
