/** Resolving one approval from the ledger and a clock, failing closed on every anomaly. */
module Approval {
  import opened Wrappers
  import opened Ledger

  datatype Status =
    | NotFound | NotYetValid | Active | Expired | Revoked | ScopeMismatch | UntrustedSigner | LedgerInvalid

  datatype Observation = Observation(
    status: Status, approvalId: string, evaluatedAt: int,
    approvedProposalId: Option<string>, manifestId: Option<string>, approver: Option<string>,
    signingKeyId: Option<string>, issuedAt: Option<int>, expiresAt: Option<int>, revocationId: Option<string>)

  function Select(entries: seq<Entry>, keep: Entry -> bool): seq<Entry> {
    if entries == [] then []
    else Select(entries[..|entries| - 1], keep) + (if keep(entries[|entries| - 1]) then [entries[|entries| - 1]] else [])
  }

  predicate Grants(e: Entry, approvalId: string) {
    e.event.Grant? && e.event.approvalId == approvalId
  }

  predicate Revokes(e: Entry, approvalId: string) {
    e.event.Revocation? && e.event.approvalId == approvalId
  }

  function Bare(status: Status, approvalId: string, now: int): Observation {
    Observation(status, approvalId, now, None, None, None, None, None, None, None)
  }

  function About(status: Status, grant: Entry, now: int, revocationId: Option<string>): Observation
    requires grant.event.Grant?
  {
    var g := grant.event;
    Observation(status, g.approvalId, now, Some(g.proposalId), Some(g.manifestId), Some(g.approver),
                Some(grant.signature.keyId), Some(g.issuedAt), Some(g.expiresAt), revocationId)
  }

  /** A revocation fits its grant: same scope, and not dated before it. */
  predicate Fits(revocation: Event, grant: Event)
    requires revocation.Revocation? && grant.Grant?
  {
    && revocation.proposalId == grant.proposalId && revocation.manifestId == grant.manifestId
    && revocation.revokedAt >= grant.issuedAt
  }

  function InLifetime(grant: Entry, now: int): Observation
    requires grant.event.Grant?
  {
    var status := if now < grant.event.issuedAt then NotYetValid else if now >= grant.event.expiresAt then Expired else Active;
    About(status, grant, now, None)
  }

  /** `resolve_agent_approval` */
  function Resolve(
    crypto: Crypto, entries: seq<Entry>, approvalId: string, proposalId: string, now: int, trusted: set<string>): Observation
  {
    SelectKeeps(entries, (e: Entry) => Grants(e, approvalId));
    SelectKeeps(entries, (e: Entry) => Revokes(e, approvalId));
    var grants := Select(entries, (e: Entry) => Grants(e, approvalId));
    var revocations := Select(entries, (e: Entry) => Revokes(e, approvalId));
    if !LedgerValid(crypto, entries) then Bare(LedgerInvalid, approvalId, now)
    else if exists i :: 0 <= i < |entries| && entries[i].signature.keyId !in trusted then
      Bare(UntrustedSigner, approvalId, now)
    else if |grants| == 0 then Bare(NotFound, approvalId, now)
    else if |grants| != 1 then Bare(LedgerInvalid, approvalId, now)
    else if grants[0].event.proposalId != proposalId then About(ScopeMismatch, grants[0], now, None)
    else if |revocations| > 1 then Bare(LedgerInvalid, approvalId, now)
    else if |revocations| == 1 then
      var revocation := revocations[0].event;
      if !Fits(revocation, grants[0].event) then Bare(LedgerInvalid, approvalId, now)
      else if revocation.revokedAt <= now then About(Revoked, grants[0], now, Some(revocation.revocationId))
      else InLifetime(grants[0], now)
    else InLifetime(grants[0], now)
  }

  // ---- selection ----

  lemma {:induction false} SelectKeeps(entries: seq<Entry>, keep: Entry -> bool)
    ensures forall k :: 0 <= k < |Select(entries, keep)| ==> keep(Select(entries, keep)[k])
    ensures forall e :: e in Select(entries, keep) <==> e in entries && keep(e)
  {
    if entries != [] {
      var before, last := entries[..|entries| - 1], entries[|entries| - 1];
      SelectKeeps(before, keep);
      assert entries == before + [last];
    }
  }

  lemma {:induction false} TwoSelected(entries: seq<Entry>, keep: Entry -> bool) returns (i: nat, j: nat)
    requires |Select(entries, keep)| > 1
    ensures i < j < |entries| && keep(entries[i]) && keep(entries[j])
  {
    var before := entries[..|entries| - 1];
    SelectKeeps(before, keep);
    if |Select(before, keep)| > 1 {
      i, j := TwoSelected(before, keep);
    } else {
      assert Select(before, keep)[0] in before;
      i :| 0 <= i < |before| && before[i] == Select(before, keep)[0];
      j := |entries| - 1;
    }
  }

  /** At most one selected entry, exactly when at most one position qualifies. */
  lemma {:induction false} SelectAtMostOne(entries: seq<Entry>, keep: Entry -> bool)
    ensures |Select(entries, keep)| <= 1 <==>
              forall i, j :: 0 <= i < j < |entries| ==> !(keep(entries[i]) && keep(entries[j]))
  {
    if |Select(entries, keep)| > 1 {
      var i, j := TwoSelected(entries, keep);
    } else if entries != [] {
      var before, last := entries[..|entries| - 1], entries[|entries| - 1];
      SelectAtMostOne(before, keep);
      SelectKeeps(before, keep);
      forall i, j | 0 <= i < j < |entries| ensures !(keep(entries[i]) && keep(entries[j])) {
        assert before[i] == entries[i] && before[i] in before;
        if j < |before| {
          assert before[j] == entries[j];
        }
      }
    }
  }

  /** On a valid ledger an approval is granted at most once, so the branch for several grants is dead. */
  lemma GrantedAtMostOnce(crypto: Crypto, entries: seq<Entry>, approvalId: string)
    requires LedgerValid(crypto, entries)
    ensures |Select(entries, (e: Entry) => Grants(e, approvalId))| <= 1
  {
    var keep := (e: Entry) => Grants(e, approvalId);
    forall i, j | 0 <= i < j < |entries| ensures !(keep(entries[i]) && keep(entries[j])) {
      assert SoundAt(crypto, entries, i) && SoundAt(crypto, entries, j);
      assert entries[i].metadata.artifactId != entries[j].metadata.artifactId;
    }
    SelectAtMostOne(entries, keep);
  }

  lemma SameGrant(crypto: Crypto, entries: seq<Entry>, a: Entry, b: Entry, approvalId: string)
    requires LedgerValid(crypto, entries) && a in entries && b in entries
    ensures Grants(a, approvalId) && Grants(b, approvalId) ==> a == b
  {
    GrantedAtMostOnce(crypto, entries, approvalId);
    SelectKeeps(entries, (e: Entry) => Grants(e, approvalId));
    var grants := Select(entries, (e: Entry) => Grants(e, approvalId));
    if Grants(a, approvalId) && Grants(b, approvalId) {
      OnlyMember(grants, a);
      OnlyMember(grants, b);
    }
  }

  // ---- what active means ----

  /** No entry revokes the approval yet, and those that will are consistent and unique. */
  ghost predicate NotRevokedYet(entries: seq<Entry>, grant: Entry, now: int)
    requires grant.event.Grant?
  {
    && (forall i :: 0 <= i < |entries| && Revokes(entries[i], grant.event.approvalId) ==>
          Fits(entries[i].event, grant.event) && now < entries[i].event.revokedAt)
    && (forall i, j :: 0 <= i < j < |entries| ==>
          !(Revokes(entries[i], grant.event.approvalId) && Revokes(entries[j], grant.event.approvalId)))
  }

  ghost predicate ActiveGrant(entries: seq<Entry>, grant: Entry, approvalId: string, proposalId: string, now: int) {
    && grant in entries && Grants(grant, approvalId) && grant.event.proposalId == proposalId
    && grant.event.issuedAt <= now < grant.event.expiresAt
    && NotRevokedYet(entries, grant, now)
  }

  ghost predicate FullyTrusted(entries: seq<Entry>, trusted: set<string>) {
    forall i :: 0 <= i < |entries| ==> entries[i].signature.keyId in trusted
  }

  lemma {:induction false} OnlyMember(xs: seq<Entry>, x: Entry)
    requires |xs| <= 1 && x in xs
    ensures |xs| == 1 && xs[0] == x
  {
  }

  lemma ActiveImpliesGrant(
    crypto: Crypto, entries: seq<Entry>, approvalId: string, proposalId: string, now: int, trusted: set<string>)
    requires Resolve(crypto, entries, approvalId, proposalId, now, trusted).status == Active
    ensures LedgerValid(crypto, entries) && FullyTrusted(entries, trusted)
    ensures exists grant :: ActiveGrant(entries, grant, approvalId, proposalId, now)
  {
    var granting, revoking := (e: Entry) => Grants(e, approvalId), (e: Entry) => Revokes(e, approvalId);
    SelectKeeps(entries, granting);
    SelectKeeps(entries, revoking);
    SelectAtMostOne(entries, revoking);
    var grant := Select(entries, granting)[0];
    assert grant in Select(entries, granting);
    forall i | 0 <= i < |entries| && Revokes(entries[i], approvalId)
      ensures Fits(entries[i].event, grant.event) && now < entries[i].event.revokedAt
    {
      assert entries[i] in Select(entries, revoking);
      OnlyMember(Select(entries, revoking), entries[i]);
    }
    forall i, j | 0 <= i < j < |entries| ensures !(Revokes(entries[i], approvalId) && Revokes(entries[j], approvalId)) {
      assert !(revoking(entries[i]) && revoking(entries[j]));
    }
    assert ActiveGrant(entries, grant, approvalId, proposalId, now);
  }

  lemma GrantImpliesActive(
    crypto: Crypto, entries: seq<Entry>, approvalId: string, proposalId: string, now: int, trusted: set<string>, grant: Entry)
    requires LedgerValid(crypto, entries) && FullyTrusted(entries, trusted)
    requires ActiveGrant(entries, grant, approvalId, proposalId, now)
    ensures Resolve(crypto, entries, approvalId, proposalId, now, trusted) == About(Active, grant, now, None)
  {
    var granting, revoking := (e: Entry) => Grants(e, approvalId), (e: Entry) => Revokes(e, approvalId);
    SelectKeeps(entries, granting);
    SelectKeeps(entries, revoking);
    GrantedAtMostOnce(crypto, entries, approvalId);
    OnlyMember(Select(entries, granting), grant);
    forall i, j | 0 <= i < j < |entries| ensures !(revoking(entries[i]) && revoking(entries[j])) {
      assert !(Revokes(entries[i], approvalId) && Revokes(entries[j], approvalId));
    }
    SelectAtMostOne(entries, revoking);
    var revocations := Select(entries, revoking);
    if |revocations| == 1 {
      assert revocations[0] in revocations;
      var i :| 0 <= i < |entries| && entries[i] == revocations[0];
      assert Revokes(entries[i], grant.event.approvalId);
    }
  }

  /**
   Active means exactly: a valid and fully trusted ledger with a grant in scope and inside its
   lifetime, at most one revocation of it, and that one consistent and not yet effective.
   */
  lemma ActiveExactly(
    crypto: Crypto, entries: seq<Entry>, approvalId: string, proposalId: string, now: int, trusted: set<string>)
    ensures Resolve(crypto, entries, approvalId, proposalId, now, trusted).status == Active <==>
              && LedgerValid(crypto, entries) && FullyTrusted(entries, trusted)
              && exists grant :: ActiveGrant(entries, grant, approvalId, proposalId, now)
  {
    if Resolve(crypto, entries, approvalId, proposalId, now, trusted).status == Active {
      ActiveImpliesGrant(crypto, entries, approvalId, proposalId, now, trusted);
    }
    if LedgerValid(crypto, entries) && FullyTrusted(entries, trusted)
       && exists grant :: ActiveGrant(entries, grant, approvalId, proposalId, now)
    {
      var grant :| ActiveGrant(entries, grant, approvalId, proposalId, now);
      GrantImpliesActive(crypto, entries, approvalId, proposalId, now, trusted, grant);
    }
  }

  // ---- revoked and expired are final ----

  lemma WhyFinal(
    crypto: Crypto, entries: seq<Entry>, approvalId: string, proposalId: string, now: int, trusted: set<string>)
    requires Resolve(crypto, entries, approvalId, proposalId, now, trusted).status in {Revoked, Expired}
    ensures LedgerValid(crypto, entries)
    ensures exists i :: 0 <= i < |entries| &&
              ((Grants(entries[i], approvalId) && entries[i].event.expiresAt <= now)
               || (Revokes(entries[i], approvalId) && entries[i].event.revokedAt <= now))
  {
    StatusExactly(crypto, entries, approvalId, proposalId, now, trusted);
    var grant :| grant in entries && GrantsIt(grant, approvalId);
    assert Granted(entries, grant, approvalId);
    var e := grant;
    if Resolve(crypto, entries, approvalId, proposalId, now, trusted).status == Revoked {
      e :| e in entries && RevokesIt(e, approvalId) && e.event.revokedAt <= now;
    }
    var i :| 0 <= i < |entries| && entries[i] == e;
  }

  /**
   Once an approval has resolved to revoked or expired, no later clock on any extension of the
   ledger resolves it to active again, for any proposal and any set of trusted keys.
   */
  lemma NeverReactivated(
    crypto: Crypto, entries: seq<Entry>, later: seq<Entry>, approvalId: string,
    proposalId: string, now: int, trusted: set<string>, proposalId': string, now': int, trusted': set<string>)
    requires Resolve(crypto, entries, approvalId, proposalId, now, trusted).status in {Revoked, Expired}
    requires entries <= later && now <= now'
    ensures Resolve(crypto, later, approvalId, proposalId', now', trusted').status != Active
  {
    WhyFinal(crypto, entries, approvalId, proposalId, now, trusted);
    var i :| 0 <= i < |entries| &&
      ((Grants(entries[i], approvalId) && entries[i].event.expiresAt <= now)
       || (Revokes(entries[i], approvalId) && entries[i].event.revokedAt <= now));
    assert later[i] == entries[i];
    if Resolve(crypto, later, approvalId, proposalId', now', trusted').status == Active {
      ActiveImpliesGrant(crypto, later, approvalId, proposalId', now', trusted');
      var grant :| ActiveGrant(later, grant, approvalId, proposalId', now');
      SameGrant(crypto, later, later[i], grant, approvalId);
      assert false;
    }
  }

  // ---- the consumer of the observation ----

  /** `_validate_active_approval`: what a run manifest demands of an active observation. */
  predicate ActiveObservationAccepted(o: Observation, proposalId: string) {
    o.status == Active ==>
      && o.approvedProposalId == Some(proposalId) && o.manifestId.Some? && o.approver.Some? && o.signingKeyId.Some?
      && o.issuedAt.Some? && o.expiresAt.Some? && o.revocationId.None?
      && o.issuedAt.value <= o.evaluatedAt < o.expiresAt.value
  }

  /** `validate_approval_state`: what the HTTP response demands of a resolved observation. */
  predicate ResponseAccepts(o: Observation) {
    && (o.status in {NotYetValid, Active, Expired, Revoked, ScopeMismatch} ==>
          && o.approvedProposalId.Some? && o.manifestId.Some? && o.approver.Some? && o.signingKeyId.Some?
          && o.issuedAt.Some? && o.expiresAt.Some?)
    && (o.status == Revoked <==> o.revocationId.Some?)
  }

  lemma ResolutionOf(
    crypto: Crypto, entries: seq<Entry>, approvalId: string, proposalId: string, now: int, trusted: set<string>)
    ensures var o := Resolve(crypto, entries, approvalId, proposalId, now, trusted);
            o.approvalId == approvalId && o.evaluatedAt == now
  {
    var granting := (e: Entry) => Grants(e, approvalId);
    SelectKeeps(entries, granting);
    SomeMember(Select(entries, granting));
  }

  lemma ResponseAcceptsResolution(
    crypto: Crypto, entries: seq<Entry>, approvalId: string, proposalId: string, now: int, trusted: set<string>)
    ensures ResponseAccepts(Resolve(crypto, entries, approvalId, proposalId, now, trusted))
  {
    StatusExactly(crypto, entries, approvalId, proposalId, now, trusted);
    if LedgerValid(crypto, entries) && FullyTrusted(entries, trusted) && exists e :: e in entries && GrantsIt(e, approvalId) {
      var grant :| grant in entries && GrantsIt(grant, approvalId);
      assert Granted(entries, grant, approvalId);
    }
  }

  /**
   A manifest accepts every resolution of its own proposal, and knows a trusted key signed the grant; the
   HTTP response accepts it too.
   */
  lemma ManifestAcceptsResolution(
    crypto: Crypto, entries: seq<Entry>, approvalId: string, proposalId: string, now: int, trusted: set<string>)
    ensures var o := Resolve(crypto, entries, approvalId, proposalId, now, trusted);
            && ActiveObservationAccepted(o, proposalId) && ResponseAccepts(o)
            && o.approvalId == approvalId && o.evaluatedAt == now
            && (o.status == Active ==> o.signingKeyId.value in trusted)
  {
    ResponseAcceptsResolution(crypto, entries, approvalId, proposalId, now, trusted);
    ResolutionOf(crypto, entries, approvalId, proposalId, now, trusted);
    if Resolve(crypto, entries, approvalId, proposalId, now, trusted).status == Active {
      ActiveImpliesGrant(crypto, entries, approvalId, proposalId, now, trusted);
      var grant :| ActiveGrant(entries, grant, approvalId, proposalId, now);
      GrantImpliesActive(crypto, entries, approvalId, proposalId, now, trusted, grant);
    }
  }

  // ---- what each status means ----

  predicate GrantsIt(e: Entry, approvalId: string) {
    match e.event
    case Grant(id, _, _, _, _, _, _) => id == approvalId
    case _ => false
  }

  predicate RevokesIt(e: Entry, approvalId: string) {
    match e.event
    case Revocation(_, id, _, _, _, _, _) => id == approvalId
    case _ => false
  }

  ghost predicate Granted(entries: seq<Entry>, grant: Entry, approvalId: string) {
    grant in entries && GrantsIt(grant, approvalId)
  }

  /** Two revocations, or one that names another scope or is dated before the grant. */
  ghost predicate Contradicted(entries: seq<Entry>, grant: Entry, approvalId: string)
    requires grant.event.Grant?
  {
    || (exists i, j :: 0 <= i < j < |entries| && RevokesIt(entries[i], approvalId) && RevokesIt(entries[j], approvalId))
    || (exists r :: r in entries && RevokesIt(r, approvalId)
                    && (r.event.proposalId != grant.event.proposalId || r.event.manifestId != grant.event.manifestId
                        || r.event.revokedAt < grant.event.issuedAt))
  }

  ghost predicate InEffect(entries: seq<Entry>, approvalId: string, now: int) {
    exists r :: r in entries && RevokesIt(r, approvalId) && r.event.revokedAt <= now
  }

  /** What the ledger says of a grant in scope at this moment. */
  ghost predicate GrantStands(entries: seq<Entry>, grant: Entry, approvalId: string, now: int, status: Status)
    requires grant.event.Grant?
  {
    match status
    case LedgerInvalid => Contradicted(entries, grant, approvalId)
    case Revoked => !Contradicted(entries, grant, approvalId) && InEffect(entries, approvalId, now)
    case NotYetValid => !Contradicted(entries, grant, approvalId) && !InEffect(entries, approvalId, now) && now < grant.event.issuedAt
    case Active =>
      && !Contradicted(entries, grant, approvalId) && !InEffect(entries, approvalId, now)
      && grant.event.issuedAt <= now < grant.event.expiresAt
    case Expired =>
      && !Contradicted(entries, grant, approvalId) && !InEffect(entries, approvalId, now)
      && grant.event.issuedAt <= now && grant.event.expiresAt <= now
    case _ => false
  }

  /** The grant's own fields, and the revocation of it when that is what ended it. */
  ghost predicate Shows(o: Observation, entries: seq<Entry>, grant: Entry, approvalId: string)
    requires grant.event.Grant?
  {
    var g := grant.event;
    && o.approvedProposalId == Some(g.proposalId) && o.manifestId == Some(g.manifestId) && o.approver == Some(g.approver)
    && o.signingKeyId == Some(grant.signature.keyId) && o.issuedAt == Some(g.issuedAt) && o.expiresAt == Some(g.expiresAt)
    && (o.revocationId.Some? <==> o.status == Revoked)
    && (o.revocationId.Some? ==>
          exists r :: r in entries && RevokesIt(r, approvalId) && r.event.revocationId == o.revocationId.value)
  }

  ghost predicate ShowsNothing(o: Observation) {
    && o.approvedProposalId.None? && o.manifestId.None? && o.approver.None? && o.signingKeyId.None?
    && o.issuedAt.None? && o.expiresAt.None? && o.revocationId.None?
  }

  function RevocationsOf(entries: seq<Entry>, approvalId: string): seq<Entry> {
    Select(entries, (e: Entry) => Revokes(e, approvalId))
  }

  lemma ManyRevocations(entries: seq<Entry>, grant: Entry, approvalId: string)
    requires grant.event.Grant? && |RevocationsOf(entries, approvalId)| > 1
    ensures Contradicted(entries, grant, approvalId)
  {
    var i, j := TwoSelected(entries, (e: Entry) => Revokes(e, approvalId));
    assert RevokesIt(entries[i], approvalId) && RevokesIt(entries[j], approvalId);
  }

  /** With at most one revocation selected there is no other. */
  lemma OnlyRevocation(entries: seq<Entry>, approvalId: string)
    requires |RevocationsOf(entries, approvalId)| <= 1
    ensures forall i, j :: 0 <= i < j < |entries| ==> !(RevokesIt(entries[i], approvalId) && RevokesIt(entries[j], approvalId))
    ensures forall r :: r in entries && RevokesIt(r, approvalId) ==> RevocationsOf(entries, approvalId) == [r]
    ensures |RevocationsOf(entries, approvalId)| == 1 ==>
              RevocationsOf(entries, approvalId)[0] in entries && RevokesIt(RevocationsOf(entries, approvalId)[0], approvalId)
  {
    var keep := (e: Entry) => Revokes(e, approvalId);
    SelectKeeps(entries, keep);
    SelectAtMostOne(entries, keep);
    forall i, j | 0 <= i < j < |entries| ensures !(RevokesIt(entries[i], approvalId) && RevokesIt(entries[j], approvalId)) {
      assert !(keep(entries[i]) && keep(entries[j]));
    }
    forall r | r in entries && RevokesIt(r, approvalId) ensures RevocationsOf(entries, approvalId) == [r] {
      OnlyMember(Select(entries, keep), r);
    }
    SomeMember(Select(entries, keep));
  }

  lemma RevocationsMeaning(entries: seq<Entry>, grant: Entry, approvalId: string, now: int)
    requires grant.event.Grant?
    ensures var revocations := RevocationsOf(entries, approvalId);
            && (|revocations| == 0 ==> !Contradicted(entries, grant, approvalId) && !InEffect(entries, approvalId, now))
            && (|revocations| > 1 ==> Contradicted(entries, grant, approvalId))
            && (|revocations| == 1 ==>
                  && RevokesIt(revocations[0], approvalId) && revocations[0] in entries
                  && (Fits(revocations[0].event, grant.event) <==> !Contradicted(entries, grant, approvalId))
                  && (InEffect(entries, approvalId, now) <==> revocations[0].event.revokedAt <= now))
  {
    if |RevocationsOf(entries, approvalId)| > 1 {
      ManyRevocations(entries, grant, approvalId);
    } else {
      OnlyRevocation(entries, approvalId);
    }
  }

  lemma GrantMeaning(
    crypto: Crypto, entries: seq<Entry>, approvalId: string, proposalId: string, now: int, trusted: set<string>, grant: Entry)
    requires LedgerValid(crypto, entries) && FullyTrusted(entries, trusted) && Granted(entries, grant, approvalId)
    ensures var o := Resolve(crypto, entries, approvalId, proposalId, now, trusted);
            if grant.event.proposalId != proposalId then o.status == ScopeMismatch && Shows(o, entries, grant, approvalId)
            else
              && GrantStands(entries, grant, approvalId, now, o.status)
              && if o.status == LedgerInvalid then ShowsNothing(o) else Shows(o, entries, grant, approvalId)
  {
    var granting := (e: Entry) => Grants(e, approvalId);
    SelectKeeps(entries, granting);
    GrantedAtMostOnce(crypto, entries, approvalId);
    OnlyMember(Select(entries, granting), grant);
    RevocationsMeaning(entries, grant, approvalId, now);
  }

  lemma SomeMember(xs: seq<Entry>)
    ensures xs == [] || exists e :: e in xs
  {
    if xs != [] {
      assert xs[0] in xs;
    }
  }

  lemma NoGrantMeaning(
    crypto: Crypto, entries: seq<Entry>, approvalId: string, proposalId: string, now: int, trusted: set<string>)
    requires LedgerValid(crypto, entries) && FullyTrusted(entries, trusted) && forall e :: e in entries ==> !GrantsIt(e, approvalId)
    ensures var o := Resolve(crypto, entries, approvalId, proposalId, now, trusted); o.status == NotFound && ShowsNothing(o)
  {
    var granting := (e: Entry) => Grants(e, approvalId);
    SelectKeeps(entries, granting);
    SomeMember(Select(entries, granting));
  }

  /**
   Every status by its exact condition: an invalid ledger, then an untrusted signer, then no grant, then a
   grant of another proposal, and for a grant in scope what the revocations and the clock say of it.
   */
  lemma StatusExactly(
    crypto: Crypto, entries: seq<Entry>, approvalId: string, proposalId: string, now: int, trusted: set<string>)
    ensures var o := Resolve(crypto, entries, approvalId, proposalId, now, trusted);
            && o.approvalId == approvalId && o.evaluatedAt == now
            && (!LedgerValid(crypto, entries) ==> o.status == LedgerInvalid && ShowsNothing(o))
            && (LedgerValid(crypto, entries) && !FullyTrusted(entries, trusted) ==> o.status == UntrustedSigner && ShowsNothing(o))
            && (LedgerValid(crypto, entries) && FullyTrusted(entries, trusted) ==>
                  && ((forall e :: e in entries ==> !GrantsIt(e, approvalId)) ==> o.status == NotFound && ShowsNothing(o))
                  && forall grant :: Granted(entries, grant, approvalId) ==>
                       if grant.event.proposalId != proposalId then o.status == ScopeMismatch && Shows(o, entries, grant, approvalId)
                       else
                         && GrantStands(entries, grant, approvalId, now, o.status)
                         && if o.status == LedgerInvalid then ShowsNothing(o) else Shows(o, entries, grant, approvalId))
  {
    ResolutionOf(crypto, entries, approvalId, proposalId, now, trusted);
    if LedgerValid(crypto, entries) && FullyTrusted(entries, trusted) {
      if forall e :: e in entries ==> !GrantsIt(e, approvalId) {
        NoGrantMeaning(crypto, entries, approvalId, proposalId, now, trusted);
      }
      forall grant | Granted(entries, grant, approvalId)
        ensures var o := Resolve(crypto, entries, approvalId, proposalId, now, trusted);
                if grant.event.proposalId != proposalId then o.status == ScopeMismatch && Shows(o, entries, grant, approvalId)
                else
                  && GrantStands(entries, grant, approvalId, now, o.status)
                  && if o.status == LedgerInvalid then ShowsNothing(o) else Shows(o, entries, grant, approvalId)
      {
        GrantMeaning(crypto, entries, approvalId, proposalId, now, trusted, grant);
      }
    }
  }

  /** If only what holders signed verifies, an active approval was granted in a trusted holder's signature. */
  lemma ActiveWasSigned(
    crypto: Crypto, entries: seq<Entry>, approvalId: string, proposalId: string, now: int, trusted: set<string>,
    signed: set<(string, Payload)>)
    returns (i: nat)
    requires Unforgeable(crypto, signed)
    requires Resolve(crypto, entries, approvalId, proposalId, now, trusted).status == Active
    ensures i < |entries| && GrantsIt(entries[i], approvalId)
    ensures entries[i].event.proposalId == proposalId && entries[i].event.issuedAt <= now < entries[i].event.expiresAt
    ensures SignedAt(crypto, signed, trusted, i + 1, if i == 0 then None else Some(entries[i - 1].entryId), entries[i].event)
  {
    ActiveImpliesGrant(crypto, entries, approvalId, proposalId, now, trusted);
    var grant :| ActiveGrant(entries, grant, approvalId, proposalId, now);
    i :| 0 <= i < |entries| && entries[i] == grant;
    assert forall k :: 0 <= k < |entries| ==> Trusts(Some(trusted), entries[k]);
    SignedInPlace(crypto, entries, trusted, signed, i);
  }
}
