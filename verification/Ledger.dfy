/**
 The signed, hash-linked agent-run ledger: its entries, the verification of a whole ledger, and
 what two verified ledgers that share an entry must have in common.
 */
module Ledger {
  import opened Wrappers

  /** 24 hours in microseconds, the longest lifetime of an approval. */
  const MAX_TTL := 86_400_000_000

  datatype Event =
    | Grant(approvalId: string, proposalId: string, manifestId: string, approver: string,
            issuedAt: int, expiresAt: int, reason: string)
    | Revocation(revocationId: string, approvalId: string, proposalId: string, manifestId: string,
                 revokedBy: string, revokedAt: int, reason: string)
    | Preflight(recordId: string, manifestId: string, proposalId: string, recordedBy: string,
                recordedAt: int, blockingReasons: seq<string>)

  datatype EventType = ApprovalGranted | ApprovalRevoked | PreflightRecorded

  datatype Metadata = Metadata(
    eventType: EventType, occurredAt: int, artifactId: string, manifestId: string, proposalId: string)

  datatype Signature = Signature(keyId: string, publicKey: string, value: string)

  /** What a signature covers; the other entry fields repeat metadata of the event. */
  datatype Payload = Payload(sequence: int, previous: Option<string>, event: Event)

  datatype Entry = Entry(
    entryId: string, sequence: int, previous: Option<string>, metadata: Metadata, event: Event, signature: Signature)

  /** SHA-256 over canonical content, and Ed25519 with its key identities, as uninterpreted operations. */
  datatype Crypto = Crypto(
    entryDigest: (Payload, Signature) -> string,
    artifactDigest: Event -> string,
    keyIdOf: string -> string,
    sign: (string, Payload) -> Signature,
    verify: (string, string, Payload) -> bool)

  /** Digests do not collide, and a signature made with a key verifies under that key. */
  ghost predicate Lawful(crypto: Crypto) {
    && (forall p, s, q, t :: crypto.entryDigest(p, s) == crypto.entryDigest(q, t) ==> p == q && s == t)
    && (forall key, p {:trigger crypto.sign(key, p)} :: var s := crypto.sign(key, p);
          s.keyId == crypto.keyIdOf(s.publicKey) && crypto.verify(s.publicKey, s.value, p))
  }

  function MetadataOf(e: Event): Metadata {
    match e
    case Grant(id, proposal, manifest, _, issued, _, _) => Metadata(ApprovalGranted, issued, id, manifest, proposal)
    case Revocation(id, _, proposal, manifest, _, revoked, _) => Metadata(ApprovalRevoked, revoked, id, manifest, proposal)
    case Preflight(id, manifest, proposal, _, recorded, _) => Metadata(PreflightRecorded, recorded, id, manifest, proposal)
  }

  /** The event without the identity that is derived from the rest of it. */
  function Content(e: Event): Event {
    match e
    case Grant(_, p, m, actor, issued, expires, reason) => Grant("", p, m, actor, issued, expires, reason)
    case Revocation(_, a, p, m, actor, revoked, reason) => Revocation("", a, p, m, actor, revoked, reason)
    case Preflight(_, m, p, actor, recorded, reasons) => Preflight("", m, p, actor, recorded, reasons)
  }

  /** The contract an event meets before it can be embedded in an entry. */
  predicate EventValid(crypto: Crypto, e: Event) {
    && MetadataOf(e).artifactId == crypto.artifactDigest(Content(e))
    && (e.Grant? ==> e.issuedAt < e.expiresAt && e.expiresAt - e.issuedAt <= MAX_TTL)
    && (e.Preflight? ==> e.blockingReasons != [] && forall i :: 0 <= i < |e.blockingReasons| ==> e.blockingReasons[i] != "")
  }

  datatype Fault =
    | WrongSequence | WrongPrevious | DuplicateEntry | DuplicateArtifact | UntrustedKey
    | WrongGenesis | EventRejected | MetadataMismatch | WrongKeyId | BadSignature | WrongEntryId

  /** `_verify_entry`: the first way in which an entry contradicts itself. */
  function VerifyEntry(crypto: Crypto, e: Entry): Option<Fault> {
    var payload := Payload(e.sequence, e.previous, e.event);
    if (e.sequence == 1) != e.previous.None? then Some(WrongGenesis)
    else if !EventValid(crypto, e.event) then Some(EventRejected)
    else if MetadataOf(e.event) != e.metadata then Some(MetadataMismatch)
    else if e.signature.keyId != crypto.keyIdOf(e.signature.publicKey) then Some(WrongKeyId)
    else if !crypto.verify(e.signature.publicKey, e.signature.value, payload) then Some(BadSignature)
    else if e.entryId != crypto.entryDigest(payload, e.signature) then Some(WrongEntryId)
    else None
  }

  function HeadId(entries: seq<Entry>): Option<string> {
    if entries == [] then None else Some(entries[|entries| - 1].entryId)
  }

  /** `build_signed_ledger_entry`, on the head of a ledger of that length. */
  function BuildEntry(crypto: Crypto, event: Event, sequence: int, previous: Option<string>, key: string): Entry {
    var payload := Payload(sequence, previous, event);
    var signature := crypto.sign(key, payload);
    Entry(crypto.entryDigest(payload, signature), sequence, previous, MetadataOf(event), event, signature)
  }

  // ---- whole ledgers ----

  predicate Linked(entries: seq<Entry>, i: nat)
    requires i < |entries|
  {
    entries[i].sequence == i + 1 && entries[i].previous == HeadId(entries[..i])
  }

  predicate NewAt(entries: seq<Entry>, i: nat)
    requires i < |entries|
  {
    forall j :: 0 <= j < i ==> entries[j].entryId != entries[i].entryId
                               && entries[j].metadata.artifactId != entries[i].metadata.artifactId
  }

  predicate SoundAt(crypto: Crypto, entries: seq<Entry>, i: nat)
    requires i < |entries|
  {
    Linked(entries, i) && NewAt(entries, i) && VerifyEntry(crypto, entries[i]).None?
  }

  predicate Trusts(trusted: Option<set<string>>, e: Entry) {
    trusted.None? || e.signature.keyId in trusted.value
  }

  /** In sequence, hash-linked, without repeated identities, every entry consistent and signed. */
  predicate LedgerValid(crypto: Crypto, entries: seq<Entry>) {
    forall i :: 0 <= i < |entries| ==> SoundAt(crypto, entries, i)
  }

  ghost predicate Clean(crypto: Crypto, entries: seq<Entry>, trusted: Option<set<string>>, i: nat)
    requires i < |entries|
  {
    SoundAt(crypto, entries, i) && Trusts(trusted, entries[i])
  }

  ghost predicate Reports(errors: seq<(int, Fault)>, position: int) {
    exists k :: 0 <= k < |errors| && errors[k].0 == position
  }

  function EntryIds(entries: seq<Entry>): set<string> {
    set e | e in entries :: e.entryId
  }

  function ArtifactIds(entries: seq<Entry>): set<string> {
    set e | e in entries :: e.metadata.artifactId
  }

  lemma SeenIffRepeated(entries: seq<Entry>, i: nat)
    requires i < |entries|
    ensures NewAt(entries, i) <==>
              entries[i].entryId !in EntryIds(entries[..i]) && entries[i].metadata.artifactId !in ArtifactIds(entries[..i])
    ensures EntryIds(entries[..i + 1]) == EntryIds(entries[..i]) + {entries[i].entryId}
    ensures ArtifactIds(entries[..i + 1]) == ArtifactIds(entries[..i]) + {entries[i].metadata.artifactId}
  {
    assert forall j :: 0 <= j < i ==> entries[j] in entries[..i];
    assert entries[..i + 1] == entries[..i] + [entries[i]];
  }

  /** The order in which the faults of one entry are looked for; the last place is that of `_verify_entry`. */
  function Place(f: Fault): nat {
    match f
    case WrongSequence => 0
    case WrongPrevious => 1
    case DuplicateEntry => 2
    case DuplicateArtifact => 3
    case UntrustedKey => 4
    case _ => 5
  }

  /** An entry where it stands: its position, its predecessor, what came before, and which keys are trusted. */
  datatype Standing = Standing(
    entry: Entry, position: int, previous: Option<string>, seenEntries: set<string>, seenArtifacts: set<string>,
    trusted: Option<set<string>>)

  predicate HasFault(crypto: Crypto, s: Standing, f: Fault) {
    match f
    case WrongSequence => s.entry.sequence != s.position
    case WrongPrevious => s.entry.previous != s.previous
    case DuplicateEntry => s.entry.entryId in s.seenEntries
    case DuplicateArtifact => s.entry.metadata.artifactId in s.seenArtifacts
    case UntrustedKey => !Trusts(s.trusted, s.entry)
    case _ => VerifyEntry(crypto, s.entry) == Some(f)
  }

  ghost predicate InPlaceOrder(found: seq<Fault>) {
    forall i, j :: 0 <= i < j < |found| ==> Place(found[i]) < Place(found[j])
  }

  /** Exactly the faults up to a place, in order. */
  ghost predicate FoundTo(crypto: Crypto, s: Standing, place: nat, found: seq<Fault>) {
    InPlaceOrder(found) && forall f :: f in found <==> HasFault(crypto, s, f) && Place(f) < place
  }

  function NoteIf(crypto: Crypto, s: Standing, found: seq<Fault>, noted: bool, f: Fault): (r: seq<Fault>)
    requires FoundTo(crypto, s, Place(f), found) && Place(f) < 5 && (noted <==> HasFault(crypto, s, f))
    ensures FoundTo(crypto, s, Place(f) + 1, r)
  {
    if noted then found + [f] else found
  }

  function NoteLast(crypto: Crypto, s: Standing, found: seq<Fault>, fault: Option<Fault>): (r: seq<Fault>)
    requires FoundTo(crypto, s, 5, found) && fault == VerifyEntry(crypto, s.entry)
    ensures InPlaceOrder(r) && forall f :: f in r <==> HasFault(crypto, s, f)
  {
    if fault.Some? then found + [fault.value] else found
  }

  /** Before anything is looked at, nothing is found. */
  lemma FoundNothing(crypto: Crypto, s: Standing)
    ensures FoundTo(crypto, s, 0, [])
  {
  }

  /** The faults of one entry: each that it has, in their order. */
  method CheckEntry(crypto: Crypto, s: Standing) returns (found: seq<Fault>)
    ensures forall f :: f in found <==> HasFault(crypto, s, f)
    ensures InPlaceOrder(found)
    ensures found == [] <==>
              && s.entry.sequence == s.position && s.entry.previous == s.previous
              && s.entry.entryId !in s.seenEntries && s.entry.metadata.artifactId !in s.seenArtifacts
              && Trusts(s.trusted, s.entry) && VerifyEntry(crypto, s.entry).None?
  {
    FoundNothing(crypto, s);
    found := NoteIf(crypto, s, [], s.entry.sequence != s.position, WrongSequence);
    found := NoteIf(crypto, s, found, s.entry.previous != s.previous, WrongPrevious);
    found := NoteIf(crypto, s, found, s.entry.entryId in s.seenEntries, DuplicateEntry);
    found := NoteIf(crypto, s, found, s.entry.metadata.artifactId in s.seenArtifacts, DuplicateArtifact);
    found := NoteIf(crypto, s, found, s.trusted.Some? && s.entry.signature.keyId !in s.trusted.value, UntrustedKey);
    found := NoteLast(crypto, s, found, VerifyEntry(crypto, s.entry));
    FaultFree(crypto, s, found);
  }

  lemma FaultFree(crypto: Crypto, s: Standing, found: seq<Fault>)
    requires forall f :: f in found <==> HasFault(crypto, s, f)
    ensures found == [] <==>
              && s.entry.sequence == s.position && s.entry.previous == s.previous
              && s.entry.entryId !in s.seenEntries && s.entry.metadata.artifactId !in s.seenArtifacts
              && Trusts(s.trusted, s.entry) && VerifyEntry(crypto, s.entry).None?
  {
    if found == [] {
      assert !HasFault(crypto, s, WrongSequence) && !HasFault(crypto, s, WrongPrevious);
      assert !HasFault(crypto, s, DuplicateEntry) && !HasFault(crypto, s, DuplicateArtifact);
      assert !HasFault(crypto, s, UntrustedKey);
      var fault := VerifyEntry(crypto, s.entry);
      assert fault.Some? ==> !HasFault(crypto, s, fault.value);
    } else {
      assert HasFault(crypto, s, found[0]);
    }
  }

  function StandingAt(entries: seq<Entry>, trusted: Option<set<string>>, i: nat): Standing
    requires i < |entries|
  {
    Standing(entries[i], i + 1, HeadId(entries[..i]), EntryIds(entries[..i]), ArtifactIds(entries[..i]), trusted)
  }

  predicate Before(a: (int, Fault), b: (int, Fault)) {
    a.0 < b.0 || (a.0 == b.0 && Place(a.1) < Place(b.1))
  }

  /** Exactly the faults of the first `n` entries, entry by entry and in their order. */
  ghost predicate Lists(crypto: Crypto, entries: seq<Entry>, trusted: Option<set<string>>, n: nat, errors: seq<(int, Fault)>)
    requires n <= |entries|
  {
    && (forall e :: e in errors <==> 1 <= e.0 <= n && HasFault(crypto, StandingAt(entries, trusted, e.0 - 1), e.1))
    && (forall i, j :: 0 <= i < j < |errors| ==> Before(errors[i], errors[j]))
  }

  lemma AtMember(position: int, found: seq<Fault>, e: (int, Fault))
    ensures e in At(position, found) <==> e.0 == position && e.1 in found
  {
    if e.0 == position && e.1 in found {
      var k :| 0 <= k < |found| && found[k] == e.1;
      assert At(position, found)[k] == e;
    }
  }

  lemma ListsInOrder(errors: seq<(int, Fault)>, n: nat, found: seq<Fault>, i: nat, j: nat)
    requires forall e :: e in errors ==> e.0 <= n
    requires forall i, j :: 0 <= i < j < |errors| ==> Before(errors[i], errors[j])
    requires InPlaceOrder(found) && i < j < |errors| + |found|
    ensures Before((errors + At(n + 1, found))[i], (errors + At(n + 1, found))[j])
  {
    if i < |errors| <= j {
      assert errors[i] in errors;
    }
  }

  lemma ListsNext(
    crypto: Crypto, entries: seq<Entry>, trusted: Option<set<string>>, n: nat, errors: seq<(int, Fault)>, found: seq<Fault>)
    requires n < |entries| && Lists(crypto, entries, trusted, n, errors)
    requires forall f :: f in found <==> HasFault(crypto, StandingAt(entries, trusted, n), f)
    requires InPlaceOrder(found)
    ensures Lists(crypto, entries, trusted, n + 1, errors + At(n + 1, found))
  {
    forall e: (int, Fault) ensures e in At(n + 1, found) <==> e.0 == n + 1 && e.1 in found {
      AtMember(n + 1, found, e);
    }
    var all := errors + At(n + 1, found);
    forall i, j | 0 <= i < j < |all| ensures Before(all[i], all[j]) {
      ListsInOrder(errors, n, found, i, j);
    }
  }

  /** The report is right about the first `i` entries. */
  ghost predicate Checked(crypto: Crypto, entries: seq<Entry>, trusted: Option<set<string>>, i: nat, errors: seq<(int, Fault)>)
    requires i <= |entries|
  {
    && (forall k :: 0 <= k < |errors| ==> 1 <= errors[k].0 <= i)
    && (errors == [] <==> forall j :: 0 <= j < i ==> Clean(crypto, entries, trusted, j))
    && (forall j :: 0 <= j < i ==> (Reports(errors, j + 1) <==> !Clean(crypto, entries, trusted, j)))
  }

  lemma CheckedStep(
    crypto: Crypto, entries: seq<Entry>, trusted: Option<set<string>>, i: nat, errors: seq<(int, Fault)>, found: seq<Fault>)
    requires i < |entries| && Checked(crypto, entries, trusted, i, errors)
    requires found == [] <==> Clean(crypto, entries, trusted, i)
    ensures Checked(crypto, entries, trusted, i + 1, errors + At(i + 1, found))
  {
    ErrorsStep(errors, i, found);
  }

  // ---- acceptance and faults in the fields of the entries ----

  /** An event carries the identity of its content; approvals last at most 24 hours, records give reasons. */
  predicate Acceptable(crypto: Crypto, e: Event) {
    match e
    case Grant(id, proposal, manifest, approver, issued, expires, reason) =>
      && id == crypto.artifactDigest(Grant("", proposal, manifest, approver, issued, expires, reason))
      && issued < expires <= issued + 86_400_000_000
    case Revocation(id, approval, proposal, manifest, actor, revoked, reason) =>
      id == crypto.artifactDigest(Revocation("", approval, proposal, manifest, actor, revoked, reason))
    case Preflight(id, manifest, proposal, actor, recorded, reasons) =>
      && id == crypto.artifactDigest(Preflight("", manifest, proposal, actor, recorded, reasons))
      && reasons != [] && "" !in reasons
  }

  predicate Repeats(m: Metadata, e: Event) {
    match e
    case Grant(id, proposal, manifest, _, issued, _, _) =>
      m.eventType == ApprovalGranted && (m.occurredAt, m.artifactId, m.manifestId, m.proposalId) == (issued, id, manifest, proposal)
    case Revocation(id, _, proposal, manifest, _, revoked, _) =>
      m.eventType == ApprovalRevoked && (m.occurredAt, m.artifactId, m.manifestId, m.proposalId) == (revoked, id, manifest, proposal)
    case Preflight(id, manifest, proposal, _, recorded, _) =>
      m.eventType == PreflightRecorded
      && (m.occurredAt, m.artifactId, m.manifestId, m.proposalId) == (recorded, id, manifest, proposal)
  }

  /** The entry at position `i` has this fault. */
  ghost predicate Broken(crypto: Crypto, entries: seq<Entry>, trusted: Option<set<string>>, i: nat, f: Fault)
    requires i < |entries|
  {
    var e := entries[i];
    match f
    case WrongSequence => e.sequence != i + 1
    case WrongPrevious => e.previous != if i == 0 then None else Some(entries[i - 1].entryId)
    case DuplicateEntry => exists j :: 0 <= j < i && entries[j].entryId == e.entryId
    case DuplicateArtifact => exists j :: 0 <= j < i && entries[j].metadata.artifactId == e.metadata.artifactId
    case UntrustedKey => trusted.Some? && e.signature.keyId !in trusted.value
    case WrongGenesis => (e.sequence == 1) != e.previous.None?
    case EventRejected => !Acceptable(crypto, e.event)
    case MetadataMismatch => !Repeats(e.metadata, e.event)
    case WrongKeyId => e.signature.keyId != crypto.keyIdOf(e.signature.publicKey)
    case BadSignature => !crypto.verify(e.signature.publicKey, e.signature.value, Payload(e.sequence, e.previous, e.event))
    case WrongEntryId => e.entryId != crypto.entryDigest(Payload(e.sequence, e.previous, e.event), e.signature)
  }

  /** Of the faults an entry has in itself only the first in this order is found. */
  function Stage(f: Fault): nat {
    match f
    case WrongGenesis => 1
    case EventRejected => 2
    case MetadataMismatch => 3
    case WrongKeyId => 4
    case BadSignature => 5
    case WrongEntryId => 6
    case _ => 0
  }

  ghost predicate Found(crypto: Crypto, entries: seq<Entry>, trusted: Option<set<string>>, i: nat, f: Fault)
    requires i < |entries|
  {
    Broken(crypto, entries, trusted, i, f) && forall g :: 0 < Stage(g) < Stage(f) ==> !Broken(crypto, entries, trusted, i, g)
  }

  /** In its place, after its predecessor, new, acceptable, signed, identified and trusted. */
  ghost predicate Evident(crypto: Crypto, entries: seq<Entry>, trusted: Option<set<string>>, i: nat)
    requires i < |entries|
  {
    var e, payload := entries[i], Payload(entries[i].sequence, entries[i].previous, entries[i].event);
    && e.sequence == i + 1 && e.previous == (if i == 0 then None else Some(entries[i - 1].entryId))
    && (forall j :: 0 <= j < i ==> entries[j].entryId != e.entryId && entries[j].metadata.artifactId != e.metadata.artifactId)
    && Acceptable(crypto, e.event) && Repeats(e.metadata, e.event)
    && e.signature.keyId == crypto.keyIdOf(e.signature.publicKey)
    && crypto.verify(e.signature.publicKey, e.signature.value, payload)
    && e.entryId == crypto.entryDigest(payload, e.signature)
    && (trusted.Some? ==> e.signature.keyId in trusted.value)
  }

  lemma AcceptableExactly(crypto: Crypto, e: Event)
    ensures EventValid(crypto, e) <==> Acceptable(crypto, e)
  {
    if e.Preflight? && "" in e.blockingReasons {
      var i :| 0 <= i < |e.blockingReasons| && e.blockingReasons[i] == "";
    }
  }

  lemma RepeatsExactly(m: Metadata, e: Event)
    ensures MetadataOf(e) == m <==> Repeats(m, e)
  {
  }

  lemma EntryFaults(crypto: Crypto, entries: seq<Entry>, trusted: Option<set<string>>, i: nat, f: Fault)
    requires i < |entries| && Stage(f) > 0
    ensures VerifyEntry(crypto, entries[i]) == Some(f) <==> Found(crypto, entries, trusted, i, f)
  {
    AcceptableExactly(crypto, entries[i].event);
    RepeatsExactly(entries[i].metadata, entries[i].event);
    assert Stage(WrongGenesis) == 1 && Stage(EventRejected) == 2 && Stage(MetadataMismatch) == 3;
    assert Stage(WrongKeyId) == 4 && Stage(BadSignature) == 5;
  }

  lemma HeadBefore(entries: seq<Entry>, i: nat)
    requires i < |entries|
    ensures HeadId(entries[..i]) == if i == 0 then None else Some(entries[i - 1].entryId)
  {
  }

  lemma SeenBefore(entries: seq<Entry>, i: nat)
    requires i < |entries|
    ensures entries[i].entryId in EntryIds(entries[..i]) <==> exists j :: 0 <= j < i && entries[j].entryId == entries[i].entryId
    ensures entries[i].metadata.artifactId in ArtifactIds(entries[..i]) <==>
            exists j :: 0 <= j < i && entries[j].metadata.artifactId == entries[i].metadata.artifactId
  {
    assert forall j :: 0 <= j < i ==> entries[..i][j] == entries[j] && entries[j] in entries[..i];
  }

  lemma FaultMeaning(crypto: Crypto, entries: seq<Entry>, trusted: Option<set<string>>, i: nat, f: Fault)
    requires i < |entries|
    ensures HasFault(crypto, StandingAt(entries, trusted, i), f) <==> Found(crypto, entries, trusted, i, f)
  {
    HeadBefore(entries, i);
    SeenBefore(entries, i);
    if Stage(f) > 0 {
      EntryFaults(crypto, entries, trusted, i, f);
    }
  }

  lemma CleanMeaning(crypto: Crypto, entries: seq<Entry>, trusted: Option<set<string>>, i: nat)
    requires i < |entries|
    ensures Clean(crypto, entries, trusted, i) <==> Evident(crypto, entries, trusted, i)
  {
    HeadBefore(entries, i);
    AcceptableExactly(crypto, entries[i].event);
    RepeatsExactly(entries[i].metadata, entries[i].event);
  }

  /** What a report says in the fields of the entries. */
  lemma ReportMeaning(crypto: Crypto, entries: seq<Entry>, trusted: Option<set<string>>, errors: seq<(int, Fault)>)
    requires Lists(crypto, entries, trusted, |entries|, errors) && Checked(crypto, entries, trusted, |entries|, errors)
    ensures errors == [] <==> forall i :: 0 <= i < |entries| ==> Evident(crypto, entries, trusted, i)
    ensures forall i, f :: 0 <= i < |entries| ==> ((i + 1, f) in errors <==> Found(crypto, entries, trusted, i, f))
  {
    forall i | 0 <= i < |entries| ensures Clean(crypto, entries, trusted, i) <==> Evident(crypto, entries, trusted, i) {
      CleanMeaning(crypto, entries, trusted, i);
    }
    forall i, f | 0 <= i < |entries| ensures (i + 1, f) in errors <==> Found(crypto, entries, trusted, i, f) {
      FaultMeaning(crypto, entries, trusted, i, f);
    }
  }

  /** `verify_agent_run_ledger`: reports exactly the faults there are, in order. */
  method VerifyLedger(crypto: Crypto, entries: seq<Entry>, trusted: Option<set<string>>)
    returns (valid: bool, head: Option<string>, errors: seq<(int, Fault)>)
    ensures valid <==> errors == []
    ensures valid <==> LedgerValid(crypto, entries) && forall i :: 0 <= i < |entries| ==> Trusts(trusted, entries[i])
    ensures Lists(crypto, entries, trusted, |entries|, errors)
    ensures forall i :: 0 <= i < |entries| ==> (Reports(errors, i + 1) <==> !Clean(crypto, entries, trusted, i))
    ensures valid <==> forall i :: 0 <= i < |entries| ==> Evident(crypto, entries, trusted, i)
    ensures forall i, f :: 0 <= i < |entries| ==> ((i + 1, f) in errors <==> Found(crypto, entries, trusted, i, f))
    ensures head == HeadId(entries)
  {
    errors := [];
    var previous: Option<string> := None;
    var seenEntries, seenArtifacts: set<string> := {}, {};
    for i := 0 to |entries|
      invariant previous == HeadId(entries[..i])
      invariant seenEntries == EntryIds(entries[..i]) && seenArtifacts == ArtifactIds(entries[..i])
      invariant Checked(crypto, entries, trusted, i, errors) && Lists(crypto, entries, trusted, i, errors)
    {
      var entry := entries[i];
      var found := CheckEntry(crypto, Standing(entry, i + 1, previous, seenEntries, seenArtifacts, trusted));
      SeenIffRepeated(entries, i);
      CheckedStep(crypto, entries, trusted, i, errors, found);
      ListsNext(crypto, entries, trusted, i, errors, found);
      errors := errors + At(i + 1, found);
      seenEntries := seenEntries + {entry.entryId};
      seenArtifacts := seenArtifacts + {entry.metadata.artifactId};
      previous := Some(entry.entryId);
      assert entries[..i + 1][i] == entry;
    }
    valid := errors == [];
    head := previous;
    assert entries[..|entries|] == entries;
    CheckedAll(crypto, entries, trusted, errors);
    ReportMeaning(crypto, entries, trusted, errors);
  }

  lemma CheckedAll(crypto: Crypto, entries: seq<Entry>, trusted: Option<set<string>>, errors: seq<(int, Fault)>)
    requires Checked(crypto, entries, trusted, |entries|, errors)
    ensures errors == [] <==> LedgerValid(crypto, entries) && forall i :: 0 <= i < |entries| ==> Trusts(trusted, entries[i])
  {
    if errors == [] {
      forall i | 0 <= i < |entries| ensures SoundAt(crypto, entries, i) && Trusts(trusted, entries[i]) {
        assert Clean(crypto, entries, trusted, i);
      }
    }
  }

  function At(position: int, found: seq<Fault>): seq<(int, Fault)> {
    seq(|found|, k requires 0 <= k < |found| => (position, found[k]))
  }

  lemma ErrorsStep(before: seq<(int, Fault)>, i: int, found: seq<Fault>)
    requires i >= 0 && forall k :: 0 <= k < |before| ==> 1 <= before[k].0 <= i
    ensures var after := before + At(i + 1, found);
            && (forall k :: 0 <= k < |after| ==> 1 <= after[k].0 <= i + 1)
            && (forall j {:trigger Reports(after, j)} :: j <= i ==> (Reports(after, j) <==> Reports(before, j)))
            && (Reports(after, i + 1) <==> found != [])
            && (after == [] <==> before == [] && found == [])
  {
    var after := before + At(i + 1, found);
    forall j {:trigger Reports(after, j)} | j <= i ensures Reports(after, j) <==> Reports(before, j) {
      if Reports(before, j) {
        var k :| 0 <= k < |before| && before[k].0 == j;
        assert after[k].0 == j;
      }
    }
    if found != [] {
      assert after[|before|].0 == i + 1;
    }
  }

  lemma SameIdSameEntry(crypto: Crypto, a: Entry, b: Entry)
    requires Lawful(crypto) && VerifyEntry(crypto, a).None? && VerifyEntry(crypto, b).None?
    requires a.entryId == b.entryId
    ensures a == b
  {
  }

  /**
   Two verified ledgers that contain the same entry identity have it at the same place and agree on
   everything before it: one identity commits to the whole history.
   */
  lemma {:induction false} SharedEntryFixesHistory(crypto: Crypto, a: seq<Entry>, b: seq<Entry>, i: nat, j: nat)
    requires Lawful(crypto) && LedgerValid(crypto, a) && LedgerValid(crypto, b)
    requires i < |a| && j < |b| && a[i].entryId == b[j].entryId
    ensures i == j && a[..i + 1] == b[..j + 1]
  {
    assert SoundAt(crypto, a, i) && SoundAt(crypto, b, j);
    SameIdSameEntry(crypto, a[i], b[j]);
    if i > 0 {
      assert a[..i][i - 1] == a[i - 1] && b[..j][j - 1] == b[j - 1];
      SharedEntryFixesHistory(crypto, a, b, i - 1, j - 1);
    }
    assert a[..i + 1] == a[..i] + [a[i]] && b[..j + 1] == b[..j] + [b[j]];
  }

  lemma SameHeadSameLedger(crypto: Crypto, a: seq<Entry>, b: seq<Entry>)
    requires Lawful(crypto) && LedgerValid(crypto, a) && LedgerValid(crypto, b)
    requires HeadId(a).Some? && HeadId(a) == HeadId(b)
    ensures a == b
  {
    SharedEntryFixesHistory(crypto, a, b, |a| - 1, |b| - 1);
  }

  // ---- appending ----

  function NextEntry(crypto: Crypto, entries: seq<Entry>, event: Event, key: string): Entry {
    BuildEntry(crypto, event, |entries| + 1, HeadId(entries), key)
  }

  ghost predicate HasArtifact(entries: seq<Entry>, id: string) {
    exists i :: 0 <= i < |entries| && entries[i].metadata.artifactId == id
  }

  /** A freshly built entry never repeats an entry identity: its position is part of what is hashed. */
  lemma NextEntryIsNew(crypto: Crypto, entries: seq<Entry>, event: Event, key: string)
    requires Lawful(crypto) && LedgerValid(crypto, entries)
    ensures forall i :: 0 <= i < |entries| ==> entries[i].entryId != NextEntry(crypto, entries, event, key).entryId
  {
    forall i | 0 <= i < |entries| ensures entries[i].entryId != NextEntry(crypto, entries, event, key).entryId {
      assert SoundAt(crypto, entries, i);
    }
  }

  /** What appending keeps, exactly: an acceptable event whose artifact the ledger does not have yet. */
  lemma AppendValidIff(crypto: Crypto, entries: seq<Entry>, event: Event, key: string)
    requires Lawful(crypto) && LedgerValid(crypto, entries)
    ensures LedgerValid(crypto, entries + [NextEntry(crypto, entries, event, key)]) <==>
            EventValid(crypto, event) && !HasArtifact(entries, MetadataOf(event).artifactId)
  {
    var e := NextEntry(crypto, entries, event, key);
    var longer, n := entries + [e], |entries|;
    NextEntryIsNew(crypto, entries, event, key);
    assert longer[..n] == entries;
    assert crypto.sign(key, Payload(n + 1, HeadId(entries), event)) == e.signature;
    forall i | 0 <= i < n ensures SoundAt(crypto, longer, i) {
      assert SoundAt(crypto, entries, i);
      assert longer[..i] == entries[..i];
    }
    assert LedgerValid(crypto, longer) <==> SoundAt(crypto, longer, n);
    if HasArtifact(entries, MetadataOf(event).artifactId) {
      var i :| 0 <= i < n && entries[i].metadata.artifactId == MetadataOf(event).artifactId;
      assert longer[i] == entries[i];
    }
  }

  /**
   Verification of the ledger read before an append does not look at the new artifact: an event that
   is already recorded builds an entry with no fault of its own, and only a uniqueness constraint
   keeps the ledger valid.
   */
  lemma RepeatedEventNeedsConstraint(crypto: Crypto, entries: seq<Entry>, i: nat, key: string)
    requires Lawful(crypto) && LedgerValid(crypto, entries) && i < |entries|
    ensures VerifyEntry(crypto, NextEntry(crypto, entries, entries[i].event, key)).None?
    ensures !LedgerValid(crypto, entries + [NextEntry(crypto, entries, entries[i].event, key)])
  {
    var event := entries[i].event;
    assert SoundAt(crypto, entries, i);
    assert HasArtifact(entries, MetadataOf(event).artifactId);
    AppendValidIff(crypto, entries, event, key);
    var payload := Payload(|entries| + 1, HeadId(entries), event);
    assert crypto.sign(key, payload) == NextEntry(crypto, entries, event, key).signature;
  }

  /** The in-memory ledger, which enforces artifact uniqueness itself. */
  class InMemoryLedger {
    const crypto: Crypto
    var entries: seq<Entry>

    ghost predicate Valid()
      reads this
    {
      Lawful(crypto) && LedgerValid(crypto, entries)
    }

    constructor (crypto: Crypto)
      requires Lawful(crypto)
      ensures Valid() && entries == [] && this.crypto == crypto
    {
      this.crypto := crypto;
      entries := [];
    }

    method Append(event: Event, key: string) returns (appended: Option<Entry>)
      requires Valid() && EventValid(crypto, event)
      modifies this
      ensures Valid()
      ensures HasArtifact(old(entries), MetadataOf(event).artifactId) ==> appended.None? && entries == old(entries)
      ensures !HasArtifact(old(entries), MetadataOf(event).artifactId) ==>
                appended == Some(NextEntry(crypto, old(entries), event, key)) && entries == old(entries) + [appended.value]
    {
      AppendValidIff(crypto, entries, event, key);
      var entry := BuildEntry(crypto, event, |entries| + 1, HeadId(entries), key);
      if exists i :: 0 <= i < |entries| && entries[i].metadata.artifactId == entry.metadata.artifactId {
        return None;
      }
      entries := entries + [entry];
      return Some(entry);
    }
  }

  // ---- tamper evidence ----

  /** `signed` is what the holders of keys have signed, and nothing else verifies. */
  ghost predicate Unforgeable(crypto: Crypto, signed: set<(string, Payload)>) {
    forall key, value, p :: crypto.verify(key, value, p) ==> (key, p) in signed
  }

  /** A trusted holder signed this event for this position, after this predecessor. */
  ghost predicate SignedAt(
    crypto: Crypto, signed: set<(string, Payload)>, trusted: set<string>, position: int, previous: Option<string>, event: Event)
  {
    exists key :: crypto.keyIdOf(key) in trusted && (key, Payload(position, previous, event)) in signed
  }

  /** Acceptance in the fields of the entries. */
  lemma AcceptedExactly(crypto: Crypto, entries: seq<Entry>, trusted: Option<set<string>>)
    ensures LedgerValid(crypto, entries) && (forall i :: 0 <= i < |entries| ==> Trusts(trusted, entries[i])) <==>
            forall i :: 0 <= i < |entries| ==> Evident(crypto, entries, trusted, i)
  {
    forall i | 0 <= i < |entries|
      ensures SoundAt(crypto, entries, i) && Trusts(trusted, entries[i]) <==> Evident(crypto, entries, trusted, i)
    {
      CleanMeaning(crypto, entries, trusted, i);
    }
  }

  /** Every event of an accepted ledger was signed in its place by a trusted holder. */
  lemma SignedInPlace(crypto: Crypto, entries: seq<Entry>, trusted: set<string>, signed: set<(string, Payload)>, i: nat)
    requires Unforgeable(crypto, signed) && LedgerValid(crypto, entries)
    requires (forall k :: 0 <= k < |entries| ==> Trusts(Some(trusted), entries[k])) && i < |entries|
    ensures SignedAt(crypto, signed, trusted, i + 1, if i == 0 then None else Some(entries[i - 1].entryId), entries[i].event)
  {
    AcceptedExactly(crypto, entries, Some(trusted));
    var e := entries[i];
    assert Evident(crypto, entries, Some(trusted), i);
    assert (e.signature.publicKey, Payload(e.sequence, e.previous, e.event)) in signed;
  }
}
