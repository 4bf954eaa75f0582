/** The registry of incident kinds: a built-in catalog that a user catalog may extend but
    never override, and the check every draft passes before the engine touches any state. */
module Kinds {
  import opened Types

  datatype KindSource = Builtin | UserConfig

  datatype KindSpec = KindSpec(
    name: string,
    allowedSubjects: seq<EntitySubjectKind>,
    allowsDimension: bool,
    dimensionLabel: Option<string>,
    minOpenConfidence: Confidence,
    source: KindSource)

  type Registry = map<string, KindSpec>

  /** One catalog entry after TOML decoding. */
  datatype KindEntry = KindEntry(
    name: string,
    allowedSubjects: seq<string>,
    allowsDimension: bool,
    dimensionLabel: Option<string>,
    minOpenConfidence: Option<Confidence>)

  datatype RegistryError =
    | DuplicateKind(kind: string)
    | CannotOverrideBuiltin(kind: string)
    | UnknownSubjectKind(name: string)

  function ParseSubjectKind(name: string): (r: Option<EntitySubjectKind>)
    ensures r == Some(SidecarKind) <==> name == "Sidecar"
    ensures r == Some(HostKind) <==> name == "Host"
    ensures r == Some(BitcoinNodeKind) <==> name == "BitcoinNode"
    ensures r == Some(BitcoinPeerKind) <==> name == "BitcoinPeer"
    ensures r == Some(LndNodeKind) <==> name == "LndNode"
    ensures r == Some(LndPeerKind) <==> name == "LndPeer"
    ensures r == Some(LndChannelKind) <==> name == "LndChannel"
    ensures r == Some(LndInvoiceKind) <==> name == "LndInvoice"
  {
    if name == "Sidecar" then Some(SidecarKind)
    else if name == "Host" then Some(HostKind)
    else if name == "BitcoinNode" then Some(BitcoinNodeKind)
    else if name == "BitcoinPeer" then Some(BitcoinPeerKind)
    else if name == "LndNode" then Some(LndNodeKind)
    else if name == "LndPeer" then Some(LndPeerKind)
    else if name == "LndChannel" then Some(LndChannelKind)
    else if name == "LndInvoice" then Some(LndInvoiceKind)
    else None
  }

  // ---- What a catalog means --------------------------------------------------------------

  predicate KnownSubjects(e: KindEntry) {
    forall i :: 0 <= i < |e.allowedSubjects| ==> ParseSubjectKind(e.allowedSubjects[i]).Some?
  }

  /** `spec` is what entry `e` declares. */
  ghost predicate Declares(e: KindEntry, source: KindSource, spec: KindSpec) {
    spec.name == e.name
    && |spec.allowedSubjects| == |e.allowedSubjects|
    && (forall i :: 0 <= i < |e.allowedSubjects| ==>
          ParseSubjectKind(e.allowedSubjects[i]) == Some(spec.allowedSubjects[i]))
    && spec.allowsDimension == e.allowsDimension
    && spec.dimensionLabel == e.dimensionLabel
    && (match e.minOpenConfidence
        case Some(c) => spec.minOpenConfidence == c
        case None => spec.minOpenConfidence == Medium)
    && spec.source == source
  }

  /** The first `n` entries can be added to `kinds`: no unknown subject, no name twice. */
  ghost predicate Insertable(kinds: Registry, entries: seq<KindEntry>, n: nat)
    requires n <= |entries|
  {
    (forall i :: 0 <= i < n ==> KnownSubjects(entries[i]) && entries[i].name !in kinds)
    && forall i, j :: 0 <= i < j < n ==> entries[i].name != entries[j].name
  }

  /** `out` is `kinds` with exactly the first `n` entries added. */
  ghost predicate Inserted(kinds: Registry, entries: seq<KindEntry>, n: nat, source: KindSource, out: Registry)
    requires n <= |entries|
  {
    (forall k :: k in kinds ==> k in out && out[k] == kinds[k])
    && (forall i :: 0 <= i < n ==>
          entries[i].name in out && Declares(entries[i], source, out[entries[i].name]))
    && forall k :: k in out ==> k in kinds || exists i :: 0 <= i < n && entries[i].name == k
  }

  /** Entry `i` is the first that cannot be added, and `error` says why. */
  ghost predicate FirstRejected(kinds: Registry, entries: seq<KindEntry>, source: KindSource, i: nat, error: RegistryError)
    requires i < |entries|
  {
    var e := entries[i];
    Insertable(kinds, entries, i)
    && match error
       case UnknownSubjectKind(name) =>
         !KnownSubjects(e) && exists j :: 0 <= j < |e.allowedSubjects| && FirstUnknown(e, j) && e.allowedSubjects[j] == name
       case CannotOverrideBuiltin(kind) =>
         KnownSubjects(e) && kind == e.name && kind in kinds && kinds[kind].source == Builtin && source == UserConfig
       case DuplicateKind(kind) =>
         KnownSubjects(e) && kind == e.name
         && if kind in kinds then !(kinds[kind].source == Builtin && source == UserConfig)
            else exists j :: 0 <= j < i && entries[j].name == kind
  }

  ghost predicate FirstUnknown(e: KindEntry, j: nat)
    requires j < |e.allowedSubjects|
  {
    ParseSubjectKind(e.allowedSubjects[j]).None?
    && forall k :: 0 <= k < j ==> ParseSubjectKind(e.allowedSubjects[k]).Some?
  }

  // ---- Loading -----------------------------------------------------------------------------

  method ParseEntry(entry: KindEntry, source: KindSource) returns (r: Result<KindSpec, RegistryError>)
    ensures r.Ok? <==> KnownSubjects(entry)
    ensures r.Ok? ==> Declares(entry, source, r.value)
    ensures r.Err? ==> r.error.UnknownSubjectKind?
                       && exists j :: 0 <= j < |entry.allowedSubjects| && FirstUnknown(entry, j)
                                      && entry.allowedSubjects[j] == r.error.name
  {
    var allowed: seq<EntitySubjectKind> := [];
    for i := 0 to |entry.allowedSubjects|
      invariant |allowed| == i
      invariant forall j :: 0 <= j < i ==> ParseSubjectKind(entry.allowedSubjects[j]) == Some(allowed[j])
    {
      var name := entry.allowedSubjects[i];
      match ParseSubjectKind(name)
      case None =>
        assert FirstUnknown(entry, i);
        return Err(UnknownSubjectKind(name));
      case Some(kind) => allowed := allowed + [kind];
    }
    var confidence := match entry.minOpenConfidence { case Some(c) => c case None => Medium };
    return Ok(KindSpec(entry.name, allowed, entry.allowsDimension, entry.dimensionLabel, confidence, source));
  }

  lemma RejectionBlocks(kinds: Registry, entries: seq<KindEntry>, source: KindSource, i: nat, error: RegistryError)
    requires i < |entries| && FirstRejected(kinds, entries, source, i, error)
    ensures !Insertable(kinds, entries, |entries|)
  {
  }

  lemma InsertableOne(kinds: Registry, entries: seq<KindEntry>, source: KindSource, i: nat, out: Registry)
    requires i < |entries| && Insertable(kinds, entries, i) && Inserted(kinds, entries, i, source, out)
    requires KnownSubjects(entries[i]) && entries[i].name !in out
    ensures Insertable(kinds, entries, i + 1)
  {
    forall j | 0 <= j < i ensures entries[j].name != entries[i].name {
      assert entries[j].name in out;
    }
  }

  lemma InsertedOne(kinds: Registry, entries: seq<KindEntry>, source: KindSource, i: nat, out: Registry, spec: KindSpec)
    requires i < |entries| && Inserted(kinds, entries, i, source, out)
    requires Declares(entries[i], source, spec) && entries[i].name !in out
    ensures Inserted(kinds, entries, i + 1, source, out[entries[i].name := spec])
  {
    var key := entries[i].name;
    var out' := out[key := spec];
    forall j | 0 <= j < i + 1 ensures entries[j].name in out' && Declares(entries[j], source, out'[entries[j].name]) {
      if j < i {
        assert entries[j].name in out && entries[j].name != key;
      }
    }
    forall k | k in out' && k !in kinds ensures exists j :: 0 <= j < i + 1 && entries[j].name == k {
      if k != key {
        var j :| 0 <= j < i && entries[j].name == k;
      } else {
        assert entries[i].name == k;
      }
    }
  }

  lemma Collision(kinds: Registry, entries: seq<KindEntry>, source: KindSource, i: nat, out: Registry, e: RegistryError)
    requires i < |entries| && Insertable(kinds, entries, i) && Inserted(kinds, entries, i, source, out)
    requires KnownSubjects(entries[i]) && entries[i].name in out
    requires e == if out[entries[i].name].source == Builtin && source == UserConfig
                  then CannotOverrideBuiltin(entries[i].name) else DuplicateKind(entries[i].name)
    ensures FirstRejected(kinds, entries, source, i, e)
  {
    var key := entries[i].name;
    if key !in kinds {
      var j :| 0 <= j < i && entries[j].name == key;
      assert Declares(entries[j], source, out[key]);
    }
  }

  /** Adds a whole catalog or nothing: the first bad entry stops the load and is reported. */
  method InsertEntries(kinds: Registry, entries: seq<KindEntry>, source: KindSource)
      returns (r: Result<Registry, RegistryError>)
    ensures r.Ok? <==> Insertable(kinds, entries, |entries|)
    ensures r.Ok? ==> Inserted(kinds, entries, |entries|, source, r.value)
    ensures r.Err? ==> exists i :: 0 <= i < |entries| && FirstRejected(kinds, entries, source, i, r.error)
  {
    var out := kinds;
    for i := 0 to |entries|
      invariant Insertable(kinds, entries, i)
      invariant Inserted(kinds, entries, i, source, out)
    {
      var entry := entries[i];
      var parsed := ParseEntry(entry, source);
      if parsed.Err? {
        assert FirstRejected(kinds, entries, source, i, parsed.error);
        RejectionBlocks(kinds, entries, source, i, parsed.error);
        return Err(parsed.error);
      }
      var key := parsed.value.name;
      if key in out {
        var e := if out[key].source == Builtin && source == UserConfig then CannotOverrideBuiltin(key)
                 else DuplicateKind(key);
        Collision(kinds, entries, source, i, out, e);
        RejectionBlocks(kinds, entries, source, i, e);
        return Err(e);
      }
      InsertableOne(kinds, entries, source, i, out);
      InsertedOne(kinds, entries, source, i, out, parsed.value);
      assert key == entry.name;
      out := out[key := parsed.value];
    }
    return Ok(out);
  }

  /** `out` is the registry the two catalogs produce. */
  ghost predicate Loaded(builtin: seq<KindEntry>, user: seq<KindEntry>, out: Registry) {
    exists base ::
      Inserted(map[], builtin, |builtin|, Builtin, base) && Inserted(base, user, |user|, UserConfig, out)
  }

  /** Both catalogs are sound and the user's defines no built-in kind anew. */
  ghost predicate Loadable(builtin: seq<KindEntry>, user: seq<KindEntry>) {
    Insertable(map[], builtin, |builtin|) && Insertable(map[], user, |user|)
    && forall i, j :: 0 <= i < |builtin| && 0 <= j < |user| ==> builtin[i].name != user[j].name
  }

  /** The first bad entry of the built-in catalog, else of the user's, and why it is bad. */
  ghost predicate LoadRejected(builtin: seq<KindEntry>, user: seq<KindEntry>, error: RegistryError) {
    (exists i :: 0 <= i < |builtin| && FirstRejected(map[], builtin, Builtin, i, error))
    || exists base, i :: Inserted(map[], builtin, |builtin|, Builtin, base)
                         && 0 <= i < |user| && FirstRejected(base, user, UserConfig, i, error)
  }

  /** Extending the built-in registry asks of the user catalog just what `Loadable` says. */
  lemma UserExtends(builtin: seq<KindEntry>, user: seq<KindEntry>, base: Registry)
    requires Insertable(map[], builtin, |builtin|) && Inserted(map[], builtin, |builtin|, Builtin, base)
    ensures Insertable(base, user, |user|) <==> Loadable(builtin, user)
  {
    if Insertable(base, user, |user|) {
      forall i, j | 0 <= i < |builtin| && 0 <= j < |user| ensures builtin[i].name != user[j].name {
        assert builtin[i].name in base && user[j].name !in base;
      }
    }
    if Loadable(builtin, user) {
      forall j | 0 <= j < |user| ensures user[j].name !in base {
        assert KnownSubjects(user[j]);
      }
    }
  }

  method Load(builtin: seq<KindEntry>, user: Option<seq<KindEntry>>) returns (r: Result<Registry, RegistryError>)
    ensures var extra := if user.Some? then user.value else [];
            (r.Ok? <==> Loadable(builtin, extra))
            && (r.Ok? ==> Loaded(builtin, extra, r.value))
            && (r.Err? ==> LoadRejected(builtin, extra, r.error))
  {
    ghost var extra := if user.Some? then user.value else [];
    var base := InsertEntries(map[], builtin, Builtin);
    match base
    case Err(_) => r := base;
    case Ok(kinds) =>
      UserExtends(builtin, extra, kinds);
      if user.None? {
        assert Inserted(kinds, [], 0, UserConfig, kinds);
        r := base;
      } else {
        r := InsertEntries(kinds, user.value, UserConfig);
      }
  }

  // ---- The built-in catalog ------------------------------------------------------------------

  const RPC_UNREACHABLE_ENTRY := KindEntry(BITCOIN_RPC_UNREACHABLE, ["BitcoinNode"], false, None, Some(High))
  const NO_PEERS_ENTRY := KindEntry(BITCOIN_NO_PEERS, ["BitcoinNode"], false, None, Some(High))
  const TIP_LAG_ENTRY := KindEntry(BITCOIN_TIP_LAG, ["BitcoinNode"], false, None, Some(High))

  const DEFAULT_KINDS: seq<KindEntry> := [
    RPC_UNREACHABLE_ENTRY,
    NO_PEERS_ENTRY,
    TIP_LAG_ENTRY,
    KindEntry(LND_CHANNEL_INACTIVE, ["LndChannel"], false, None, Some(Medium)),
    KindEntry(LND_CHAIN_BACKEND_LAG, ["LndNode"], false, None, Some(High)),
    KindEntry("bithound.lnd_unreachable", ["Sidecar"], true, Some("collector_id"), Some(High)),
    KindEntry("bithound.lnd_auth_failed", ["Sidecar"], true, Some("collector_id"), Some(High)),
    KindEntry("bithound.lnd_tls_invalid", ["Sidecar"], true, Some("collector_id"), Some(High))
  ]

  /** The meaning a registry gives a Bitcoin kind: Bitcoin nodes only, no dimension, and a
      confidence floor that a rule's High-confidence draft always reaches. */
  predicate BitcoinKind(spec: KindSpec) {
    spec.allowedSubjects == [BitcoinNodeKind] && !spec.allowsDimension && spec.minOpenConfidence == High
  }

  /** A user catalog never changes a built-in entry. */
  lemma BuiltinPersists(builtin: seq<KindEntry>, user: seq<KindEntry>, out: Registry, i: nat)
    requires Loaded(builtin, user, out) && i < |builtin|
    ensures builtin[i].name in out && Declares(builtin[i], Builtin, out[builtin[i].name])
  {
    var base :| Inserted(map[], builtin, |builtin|, Builtin, base) && Inserted(base, user, |user|, UserConfig, out);
    assert builtin[i].name in base;
  }

  /** Whatever the user catalog adds, a registry that loads gives each Bitcoin kind its
      built-in meaning. */
  lemma BitcoinKindsKeepTheirMeaning(user: seq<KindEntry>, out: Registry)
    requires Loaded(DEFAULT_KINDS, user, out)
    ensures BITCOIN_RPC_UNREACHABLE in out && BitcoinKind(out[BITCOIN_RPC_UNREACHABLE])
    ensures BITCOIN_NO_PEERS in out && BitcoinKind(out[BITCOIN_NO_PEERS])
    ensures BITCOIN_TIP_LAG in out && BitcoinKind(out[BITCOIN_TIP_LAG])
  {
    RpcUnreachableDefault(user, out);
    NoPeersDefault(user, out);
    TipLagDefault(user, out);
  }

  lemma RpcUnreachableDefault(user: seq<KindEntry>, out: Registry)
    requires Loaded(DEFAULT_KINDS, user, out)
    ensures BITCOIN_RPC_UNREACHABLE in out && BitcoinKind(out[BITCOIN_RPC_UNREACHABLE])
  {
    BuiltinPersists(DEFAULT_KINDS, user, out, 0);
    BitcoinEntry(RPC_UNREACHABLE_ENTRY, out[BITCOIN_RPC_UNREACHABLE]);
  }

  lemma NoPeersDefault(user: seq<KindEntry>, out: Registry)
    requires Loaded(DEFAULT_KINDS, user, out)
    ensures BITCOIN_NO_PEERS in out && BitcoinKind(out[BITCOIN_NO_PEERS])
  {
    BuiltinPersists(DEFAULT_KINDS, user, out, 1);
    BitcoinEntry(NO_PEERS_ENTRY, out[BITCOIN_NO_PEERS]);
  }

  lemma TipLagDefault(user: seq<KindEntry>, out: Registry)
    requires Loaded(DEFAULT_KINDS, user, out)
    ensures BITCOIN_TIP_LAG in out && BitcoinKind(out[BITCOIN_TIP_LAG])
  {
    BuiltinPersists(DEFAULT_KINDS, user, out, 2);
    BitcoinEntry(TIP_LAG_ENTRY, out[BITCOIN_TIP_LAG]);
  }

  lemma BitcoinEntry(e: KindEntry, spec: KindSpec)
    requires e.allowedSubjects == ["BitcoinNode"] && !e.allowsDimension && e.minOpenConfidence == Some(High)
    requires Declares(e, Builtin, spec)
    ensures BitcoinKind(spec)
  {
    assert ParseSubjectKind(e.allowedSubjects[0]) == Some(spec.allowedSubjects[0]);
  }

  /** `spec` allows exactly one subject kind, and opens at `floor`. */
  predicate AllowsOnly(spec: KindSpec, subject: EntitySubjectKind, floor: Confidence, dimension: Option<string>) {
    spec.allowedSubjects == [subject] && spec.minOpenConfidence == floor
    && spec.allowsDimension == dimension.Some? && spec.dimensionLabel == dimension
  }

  lemma DefaultMeans(user: seq<KindEntry>, out: Registry, i: nat, e: KindEntry, subject: EntitySubjectKind)
    requires Loaded(DEFAULT_KINDS, user, out) && i < |DEFAULT_KINDS| && DEFAULT_KINDS[i] == e
    requires |e.allowedSubjects| == 1 && ParseSubjectKind(e.allowedSubjects[0]) == Some(subject) && e.minOpenConfidence.Some?
    requires e.allowsDimension == e.dimensionLabel.Some?
    ensures e.name in out && AllowsOnly(out[e.name], subject, e.minOpenConfidence.value, e.dimensionLabel)
  {
    BuiltinPersists(DEFAULT_KINDS, user, out, i);
    assert out[e.name].allowedSubjects == [out[e.name].allowedSubjects[0]];
  }

  /** The same for the built-in LND kinds: the channel kind opens at Medium, the others at High,
      and the kinds about the connection itself are the sidecar's, one per collector. */
  lemma LndKindsKeepTheirMeaning(user: seq<KindEntry>, out: Registry)
    requires Loaded(DEFAULT_KINDS, user, out)
    ensures "lnd.channel_inactive" in out && AllowsOnly(out["lnd.channel_inactive"], LndChannelKind, Medium, None)
    ensures "lnd.chain_backend_lag" in out && AllowsOnly(out["lnd.chain_backend_lag"], LndNodeKind, High, None)
  {
    DefaultMeans(user, out, 3, DEFAULT_KINDS[3], LndChannelKind);
    DefaultMeans(user, out, 4, DEFAULT_KINDS[4], LndNodeKind);
  }

  lemma SidecarKindsKeepTheirMeaning(user: seq<KindEntry>, out: Registry, i: nat)
    requires Loaded(DEFAULT_KINDS, user, out) && i < 3
    ensures var name := ["bithound.lnd_unreachable", "bithound.lnd_auth_failed", "bithound.lnd_tls_invalid"][i];
            name in out && AllowsOnly(out[name], SidecarKind, High, Some("collector_id"))
  {
    DefaultMeans(user, out, 5 + i, DEFAULT_KINDS[5 + i], SidecarKind);
  }

  // ---- Draft validation ------------------------------------------------------------------------

  datatype DraftError =
    | UnknownKind(kind: string)
    | DisallowedSubject(kind: string, subject: EntitySubjectKind, allowed: seq<EntitySubjectKind>)
    | DimensionRequired(kind: string)
    | DimensionForbidden(kind: string)

  function ValidateDraft(kinds: Registry, draft: Draft): (r: Option<DraftError>)
    ensures r.None? <==> draft.kind in kinds
                         && SubjectKind(draft.subject) in kinds[draft.kind].allowedSubjects
                         && (kinds[draft.kind].allowsDimension <==> draft.dimension.Some?)
    ensures r.Some? && r.value.UnknownKind? <==> draft.kind !in kinds
    ensures r.Some? && r.value.DisallowedSubject? <==>
              draft.kind in kinds && SubjectKind(draft.subject) !in kinds[draft.kind].allowedSubjects
    ensures r.Some? && r.value.DimensionRequired? ==> draft.dimension.None?
    ensures r.Some? && r.value.DimensionForbidden? ==> draft.dimension.Some?
    ensures r.Some? ==> r.value.kind == draft.kind
  {
    if draft.kind !in kinds then Some(UnknownKind(draft.kind))
    else
      var spec := kinds[draft.kind];
      var subject := SubjectKind(draft.subject);
      if subject !in spec.allowedSubjects then
        Some(DisallowedSubject(draft.kind, subject, spec.allowedSubjects))
      else
        match (spec.allowsDimension, draft.dimension.Some?)
        case (true, false) => Some(DimensionRequired(draft.kind))
        case (false, true) => Some(DimensionForbidden(draft.kind))
        case _ => None
  }
}
