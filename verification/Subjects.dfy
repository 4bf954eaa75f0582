/** How a subject is stored: a (kind, id) pair of strings, decoded again on read-back, and
    the storage key of an incident fingerprint. */
module Subjects {
  import opened Types
  import Names

  datatype StoreError = UnknownSubjectKind(kind: string) | BadUuid(id: string) | MissingSlash(id: string)

  // ---- UUID text ---------------------------------------------------------------------

  const HEX := "0123456789abcdef"

  function HexValue(c: char): (d: Option<Nibble>)
    ensures d.Some? ==> HEX[d.value] == c
  {
    if '0' <= c <= '9' then Some((c - '0') as int)
    else if 'a' <= c <= 'f' then Some(10 + (c - 'a') as int)
    else None
  }

  predicate HyphenAt(p: nat) {
    p == 8 || p == 13 || p == 18 || p == 23
  }

  /** Text position of digit `i` in the 8-4-4-4-12 form. */
  function PositionOf(i: nat): nat {
    if i < 8 then i else if i < 12 then i + 1 else if i < 16 then i + 2 else if i < 20 then i + 3 else i + 4
  }

  /** Digit shown at a text position that is not a hyphen. */
  function DigitAt(p: nat): nat {
    if p < 8 then p
    else if p < 13 then p - 1
    else if p < 18 then p - 2
    else if p < 23 then p - 3
    else p - 4
  }

  function UuidToString(u: Uuid): string {
    seq(36, p requires 0 <= p < 36 => if HyphenAt(p) || DigitAt(p) >= 32 then '-' else HEX[u[DigitAt(p)]])
  }

  predicate IsUuidText(s: string) {
    |s| == 36
    && (forall p :: 0 <= p < 36 && HyphenAt(p) ==> s[p] == '-')
    && (forall i :: 0 <= i < 32 ==> HexValue(s[PositionOf(i)]).Some?)
  }

  function ParseUuid(s: string): Option<Uuid> {
    if IsUuidText(s) then
      Some(seq(32, i requires 0 <= i < 32 && IsUuidText(s) => HexValue(s[PositionOf(i)]).value))
    else None
  }

  lemma UuidRoundTrip(u: Uuid)
    ensures ParseUuid(UuidToString(u)) == Some(u)
    ensures '|' !in UuidToString(u)
  {
    var s := UuidToString(u);
    forall i | 0 <= i < 32 ensures HexValue(s[PositionOf(i)]) == Some(u[i]) {
      assert DigitAt(PositionOf(i)) == i && !HyphenAt(PositionOf(i));
    }
    var v := ParseUuid(s).value;
    forall i | 0 <= i < 32 ensures v[i] == u[i] {
      assert HexValue(s[PositionOf(i)]) == Some(u[i]);
    }
    assert v == u;
  }

  /** The 8-4-4-4-12 text, in lower case. */
  lemma UuidForm(u: Uuid)
    ensures var s, hex := UuidToString(u), "0123456789abcdef";
            |s| == 36 && s[8] == s[13] == s[18] == s[23] == '-'
            && (forall i :: 0 <= i < 8 ==> s[i] == hex[u[i]]) && (forall i :: 8 <= i < 12 ==> s[i + 1] == hex[u[i]])
            && (forall i :: 12 <= i < 16 ==> s[i + 2] == hex[u[i]]) && (forall i :: 16 <= i < 20 ==> s[i + 3] == hex[u[i]])
            && forall i :: 20 <= i < 32 ==> s[i + 4] == hex[u[i]]
  {
  }

  // ---- Encoding ----------------------------------------------------------------------

  function SubjectKindStr(e: EntityRef): string {
    match e
    case Sidecar(_) => "sidecar"
    case Host(_) => "host"
    case BitcoinNode(_) => "bitcoin_node"
    case BitcoinPeer(_, _) => "bitcoin_peer"
    case LndNode(_) => "lnd_node"
    case LndPeer(_, _) => "lnd_peer"
    case LndChannel(_, _) => "lnd_channel"
    case LndInvoice(_, _) => "lnd_invoice"
  }

  predicate Scoped(e: EntityRef) {
    e.BitcoinPeer? || e.LndPeer? || e.LndChannel? || e.LndInvoice?
  }

  function SubjectIdStr(e: EntityRef): string {
    match e
    case Sidecar(u) => UuidToString(u)
    case Host(h) => h
    case BitcoinNode(n) => n
    case LndNode(n) => n
    case BitcoinPeer(n, p) => n + "/" + p
    case LndPeer(n, p) => n + "/" + p
    case LndChannel(n, c) => n + "/" + c
    case LndInvoice(n, i) => n + "/" + i
  }

  // ---- Decoding ----------------------------------------------------------------------

  /** The text before and after the first `sep`, if there is one. */
  function SplitOnce(s: string, sep: char): (r: Option<(string, string)>)
    ensures r.None? <==> sep !in s
    ensures r.Some? ==> s == r.value.0 + [sep] + r.value.1 && sep !in r.value.0
  {
    if s == "" then None
    else if s[0] == sep then Some(("", s[1..]))
    else
      match SplitOnce(s[1..], sep)
      case None => None
      case Some((a, b)) => Some(([s[0]] + a, b))
  }

  function SplitScoped(id: string): Result<(string, string), StoreError> {
    match SplitOnce(id, '/')
    case Some(pair) => Ok(pair)
    case None => Err(MissingSlash(id))
  }

  function KindFromStr(kind: string): Option<EntitySubjectKind> {
    if kind == "sidecar" then Some(SidecarKind)
    else if kind == "host" then Some(HostKind)
    else if kind == "bitcoin_node" then Some(BitcoinNodeKind)
    else if kind == "bitcoin_peer" then Some(BitcoinPeerKind)
    else if kind == "lnd_node" then Some(LndNodeKind)
    else if kind == "lnd_peer" then Some(LndPeerKind)
    else if kind == "lnd_channel" then Some(LndChannelKind)
    else if kind == "lnd_invoice" then Some(LndInvoiceKind)
    else None
  }

  lemma KindStrRoundTrip(e: EntityRef)
    ensures KindFromStr(SubjectKindStr(e)) == Some(SubjectKind(e))
  {
  }

  function SubjectFromPair(kind: string, id: string): Result<EntityRef, StoreError> {
    match KindFromStr(kind)
    case None => Err(UnknownSubjectKind(kind))
    case Some(tag) => SubjectOfKind(tag, id)
  }

  function SubjectOfKind(tag: EntitySubjectKind, id: string): Result<EntityRef, StoreError> {
    match tag
    case SidecarKind => (match ParseUuid(id) { case Some(u) => Ok(Sidecar(u)) case None => Err(BadUuid(id)) })
    case HostKind => Ok(Host(id))
    case BitcoinNodeKind => Ok(BitcoinNode(id))
    case LndNodeKind => Ok(LndNode(id))
    case scoped =>
      match SplitScoped(id)
      case Err(e) => Err(e)
      case Ok((node, sub)) =>
        match scoped
        case BitcoinPeerKind => Ok(BitcoinPeer(node, sub))
        case LndPeerKind => Ok(LndPeer(node, sub))
        case LndChannelKind => Ok(LndChannel(node, sub))
        case _ => Ok(LndInvoice(node, sub))
  }

  lemma DecodesByKind(kind: string, id: string, tag: EntitySubjectKind)
    requires KindFromStr(kind) == Some(tag)
    ensures SubjectFromPair(kind, id) == SubjectOfKind(tag, id)
  {
  }

  lemma SplitAtUniqueSeparator(a: string, b: string, c: string, d: string, sep: char)
    requires a + [sep] + b == c + [sep] + d && sep !in a && sep !in c
    ensures a == c && b == d
  {
    var w := a + [sep] + b;
    assert w == c + [sep] + d;
    assert w[|a|] == sep && w[|c|] == sep;
    assert a == w[..|a|] && c == w[..|c|];
    assert b == w[|a| + 1..] == d;
  }

  lemma SplitScopedInverts(n: string, sub: string)
    ensures SplitScoped(n + "/" + sub) == Ok((n, sub)) <==> '/' !in n
    ensures SplitScoped(n + "/" + sub).Ok?
  {
    var s := n + "/" + sub;
    assert s[|n|] == '/';
    var pair := SplitOnce(s, '/').value;
    if '/' !in n {
      SplitAtUniqueSeparator(pair.0, pair.1, n, sub, '/');
    }
  }

  lemma ScopedRoundTrip(tag: EntitySubjectKind, n: string, sub: string)
    requires tag == BitcoinPeerKind || tag == LndPeerKind || tag == LndChannelKind || tag == LndInvoiceKind
    ensures var r := SubjectOfKind(tag, n + "/" + sub);
            r.Ok? && Scoped(r.value) && SubjectKind(r.value) == tag
            && (r.value.nodeId == n && r.value.subId == sub <==> '/' !in n)
  {
    SplitScopedInverts(n, sub);
  }

  lemma KindRoundTrip(e: EntityRef)
    ensures SubjectOfKind(SubjectKind(e), SubjectIdStr(e)) == Ok(e) <==> (Scoped(e) ==> '/' !in e.nodeId)
    ensures SubjectOfKind(SubjectKind(e), SubjectIdStr(e)).Ok?
  {
    if e.Sidecar? {
      UuidRoundTrip(e.uuid);
    } else if Scoped(e) {
      assert SubjectIdStr(e) == e.nodeId + "/" + e.subId;
      ScopedRoundTrip(SubjectKind(e), e.nodeId, e.subId);
    }
  }

  /** Reading back a stored subject gives the subject itself, except for a scoped subject
      whose node id contains a slash, which is read back as a different subject. */
  lemma SubjectRoundTrip(e: EntityRef)
    ensures SubjectFromPair(SubjectKindStr(e), SubjectIdStr(e)) == Ok(e)
            <==> (Scoped(e) ==> '/' !in e.nodeId)
    ensures SubjectFromPair(SubjectKindStr(e), SubjectIdStr(e)).Ok?
  {
    KindStrRoundTrip(e);
    DecodesByKind(SubjectKindStr(e), SubjectIdStr(e), SubjectKind(e));
    KindRoundTrip(e);
  }

  /** Two scoped subjects of one kind that are stored under one id. */
  predicate SameStoredId(n: string, sub: string, n': string, sub': string) {
    n + "/" + sub == n' + "/" + sub'
  }

  /** Subjects of two different nodes can be stored under one id if and only if one node id
      continues the other after a slash. */
  lemma StoredIdsCollideExactly(n: string, n': string)
    requires n != n'
    ensures (exists sub, sub' :: SameStoredId(n, sub, n', sub')) <==> n + "/" <= n' || n' + "/" <= n
  {
    if n + "/" <= n' {
      ContinuedIdCollides(n, n');
    }
    if n' + "/" <= n {
      ContinuedIdCollides(n', n);
      var rest := n[|n'| + 1..];
      assert SameStoredId(n, "", n', rest + "/");
    }
    if sub, sub' :| SameStoredId(n, sub, n', sub') {
      if |n| <= |n'| {
        SharedIdContinues(n, sub, n', sub');
      } else {
        SharedIdContinues(n', sub', n, sub);
      }
    }
  }

  lemma ContinuedIdCollides(n: string, n': string)
    requires n + "/" <= n'
    ensures SameStoredId(n, n'[|n| + 1..] + "/", n', "")
  {
    assert n' == n + "/" + n'[|n| + 1..];
  }

  lemma SharedIdContinues(n: string, sub: string, n': string, sub': string)
    requires SameStoredId(n, sub, n', sub') && |n| <= |n'| && n != n'
    ensures n + "/" <= n'
  {
    var id := n + "/" + sub;
    assert id == n' + "/" + sub';
    assert n == id[..|n|] && n' == id[..|n'|];
    assert |n| < |n'|;
    assert n + "/" == id[..|n| + 1];
  }

  // ---- Storage keys of fingerprints -------------------------------------------------------

  function AsKey(fp: Fingerprint): string {
    var dim := match fp.dimension { case None => "-" case Some(d) => d };
    SubjectKindStr(fp.subject) + "|" + (SubjectIdStr(fp.subject) + "|" + (fp.kind + "|" + dim))
  }

  /** The conditions under which keys tell fingerprints apart. The kind's condition holds
      of every parsed kind (`ParsedKindHasNoBar`). */
  predicate KeySafe(fp: Fingerprint) {
    (Scoped(fp.subject) ==> '/' !in fp.subject.nodeId)
    && '|' !in SubjectIdStr(fp.subject)
    && '|' !in fp.kind
    && fp.dimension != Some("-")
  }

  lemma ParsedKindHasNoBar(kind: string)
    requires Names.ValidName(kind)
    ensures '|' !in kind
  {
    Names.DottedIsClosed(kind);
    forall i | 0 <= i < |kind| ensures kind[i] != '|' {
      assert Names.FitsAt(kind, i);
    }
  }

  /** The stored forms, which other programs read. */
  lemma StoredForms(n: string, sub: string, kind: string, d: string)
    ensures SubjectKindStr(Host(n)) == "host" && SubjectIdStr(Host(n)) == n
    ensures SubjectKindStr(BitcoinNode(n)) == "bitcoin_node" && SubjectIdStr(BitcoinNode(n)) == n
    ensures SubjectKindStr(BitcoinPeer(n, sub)) == "bitcoin_peer" && SubjectIdStr(BitcoinPeer(n, sub)) == n + "/" + sub
    ensures SubjectKindStr(LndNode(n)) == "lnd_node" && SubjectIdStr(LndNode(n)) == n
    ensures SubjectKindStr(LndPeer(n, sub)) == "lnd_peer" && SubjectIdStr(LndPeer(n, sub)) == n + "/" + sub
    ensures SubjectKindStr(LndChannel(n, sub)) == "lnd_channel" && SubjectIdStr(LndChannel(n, sub)) == n + "/" + sub
    ensures SubjectKindStr(LndInvoice(n, sub)) == "lnd_invoice" && SubjectIdStr(LndInvoice(n, sub)) == n + "/" + sub
    ensures forall u :: SubjectKindStr(Sidecar(u)) == "sidecar"
    ensures AsKey(Fingerprint(BitcoinNode(n), kind, None)) == "bitcoin_node|" + n + "|" + kind + "|-"
    ensures AsKey(Fingerprint(BitcoinNode(n), kind, Some(d))) == "bitcoin_node|" + n + "|" + kind + "|" + d
  {
    assert "bitcoin_node" + "|" + (n + "|" + (kind + "|" + "-")) == "bitcoin_node|" + n + "|" + kind + "|-";
    assert "bitcoin_node" + "|" + (n + "|" + (kind + "|" + d)) == "bitcoin_node|" + n + "|" + kind + "|" + d;
  }

  lemma AsKeyInjective(a: Fingerprint, b: Fingerprint)
    requires KeySafe(a) && KeySafe(b)
    ensures AsKey(a) == AsKey(b) <==> a == b
  {
    if AsKey(a) == AsKey(b) {
      var dimA := match a.dimension { case None => "-" case Some(d) => d };
      var dimB := match b.dimension { case None => "-" case Some(d) => d };
      KindStrHasNoBar(a.subject);
      KindStrHasNoBar(b.subject);
      SplitAtUniqueSeparator(SubjectKindStr(a.subject), SubjectIdStr(a.subject) + "|" + (a.kind + "|" + dimA),
                             SubjectKindStr(b.subject), SubjectIdStr(b.subject) + "|" + (b.kind + "|" + dimB), '|');
      SplitAtUniqueSeparator(SubjectIdStr(a.subject), a.kind + "|" + dimA,
                             SubjectIdStr(b.subject), b.kind + "|" + dimB, '|');
      SplitAtUniqueSeparator(a.kind, dimA, b.kind, dimB, '|');
      SubjectRoundTrip(a.subject);
      SubjectRoundTrip(b.subject);
    }
  }

  lemma KindStrHasNoBar(e: EntityRef)
    ensures '|' !in SubjectKindStr(e)
  {
    match e
    case Sidecar(_) =>
    case Host(_) =>
    case BitcoinNode(_) =>
    case BitcoinPeer(_, _) =>
    case LndNode(_) =>
    case LndPeer(_, _) =>
    case LndChannel(_, _) =>
    case LndInvoice(_, _) =>
  }

  /** Each condition of `KeySafe` is needed: without any one of them there are, for all texts
      around the separator, two fingerprints with one key. */
  lemma KeyCollisions(a: string, b: string, c: string, kind: string, e: EntityRef)
    ensures AsKey(Fingerprint(LndChannel(a + "/" + b, c), kind, None)) == AsKey(Fingerprint(LndChannel(a, b + "/" + c), kind, None))
    ensures AsKey(Fingerprint(Host(a + "|" + b), kind, None)) == AsKey(Fingerprint(Host(a), b, Some(kind + "|-")))
    ensures AsKey(Fingerprint(e, a + "|" + b, None)) == AsKey(Fingerprint(e, a, Some(b + "|-")))
    ensures AsKey(Fingerprint(e, kind, Some("-"))) == AsKey(Fingerprint(e, kind, None))
  {
    assert (a + "/" + b) + "/" + c == a + "/" + (b + "/" + c);
    assert (a + "|" + b) + "|" + (kind + "|" + "-") == a + "|" + (b + "|" + (kind + "|-"));
    assert (a + "|" + b) + "|" + "-" == a + "|" + (b + "|-");
  }
}
