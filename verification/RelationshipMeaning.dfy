/** When two records agree, contradict each other, or show neither: the analysis stated over the records. */
module RelationshipMeaning {
  import opened Lookups
  import opened Ordering
  import opened Relationships
  import opened Sorting
  import opened Wrappers

  /** The domain of hazard a record belongs to; a seismic one can be tsunami-related as well. */
  predicate Domain(platform: Platform, r: Record, value: string) {
    || (r.source == "usgs" && "seismic." <= r.eventType && (value == "seismic" || (value == "tsunami_related" && r.tsunami)))
    || (r.source == "firms" && r.eventType == "fire.thermal_anomaly" && value == "fire_related")
    || (r.source == "gdelt" && r.eventType == "geopolitical.gdelt_event" && value == "material_conflict")
    || (r.source == "nws" && r.eventType == "weather.alert" && WeatherDomain(platform, r) == Some(value))
  }

  /** The terms of an alert come before its category. */
  function WeatherDomain(platform: Platform, r: Record): Option<string> {
    var alert := if r.alertType.Some? then platform.strip(r.alertType.value) else "";
    if platform.termDomain(alert).Some? then platform.termDomain(alert)
    else if r.category.Some? then platform.categoryDomain(r.category.value)
    else None
  }

  predicate IsState(s: Subject, value: string) {
    || (s == EvacuationState && (value == "lifted" || value == "active"))
    || (s == RoadAccessState && (value == "open" || value == "closed"))
  }

  /** Some text of the record names this state. */
  ghost predicate Names(platform: Platform, texts: seq<(string, string)>, s: Subject, value: string) {
    IsState(s, value) && exists text :: text in texts && platform.strip(text.1) != "" && platform.says(s, value, text.1)
  }

  /** The record has a place, and its texts name this state and no other. */
  ghost predicate States(platform: Platform, r: Record, s: Subject, value: string) {
    && r.place.Some? && platform.normalize(r.place.value) != ""
    && Names(platform, r.texts, s, value) && forall w :: Names(platform, r.texts, s, w) ==> w == value
  }

  ghost predicate Asserts(platform: Platform, r: Record, s: Subject, value: string) {
    if s == HazardDomain then Domain(platform, r, value) else States(platform, r, s, value)
  }

  /** Cleaning a place for display does not change its normal form. */
  ghost predicate Steady(platform: Platform) {
    forall p :: platform.normalize(platform.clean(p)) == platform.normalize(p)
  }

  ghost predicate CollisionFree(platform: Platform) {
    forall i, j :: platform.contentId(i) == platform.contentId(j) ==> i == j
  }

  /** Hazards compare along the edge, operational states at one named place. */
  predicate Comparable(platform: Platform, x: Record, y: Record, s: Subject) {
    s == HazardDomain
    || (x.place.Some? && y.place.Some? && platform.normalize(x.place.value) == platform.normalize(y.place.value))
  }

  predicate Opposed(s: Subject, v: string, w: string) {
    || (s == EvacuationState && ((v == "active" && w == "lifted") || (v == "lifted" && w == "active")))
    || (s == RoadAccessState && ((v == "open" && w == "closed") || (v == "closed" && w == "open")))
  }

  /** What two records amount to on a subject; agreement names the value. */
  ghost predicate Judged(platform: Platform, x: Record, y: Record, j: Label, s: Subject, value: Option<string>) {
    match j
    case Corroborates =>
      && Comparable(platform, x, y, s)
      && value.Some? && Asserts(platform, x, s, value.value) && Asserts(platform, y, s, value.value)
    case Contradicts =>
      && Comparable(platform, x, y, s) && value.None?
      && exists v, w :: Asserts(platform, x, s, v) && Asserts(platform, y, s, w) && Opposed(s, v, w)
    case InsufficientEvidence => false
  }

  // ---- claims against records ----

  ghost predicate SaysValue(es: seq<Evidence>, value: string) {
    exists e :: e in es && e.value == value
  }

  lemma SaysAppend(es: seq<Evidence>, more: seq<Evidence>, value: string)
    ensures SaysValue(es + more, value) <==> SaysValue(es, value) || SaysValue(more, value)
  {
  }

  lemma {:induction false} SaidMeaning(
    platform: Platform, text: (string, string), patterns: seq<(Subject, string)>, s: Subject, value: string)
    ensures SaysValue(Said(platform, text, patterns, s), value) <==>
              (s, value) in patterns && platform.strip(text.1) != "" && platform.says(s, value, text.1)
  {
    if patterns != [] {
      var before, last := patterns[..|patterns| - 1], patterns[|patterns| - 1];
      SaidMeaning(platform, text, before, s, value);
      SaysAppend(Said(platform, text, before, s), SaidBy(platform, text, last, s), value);
      assert patterns == before + [last];
      SaidByMeaning(platform, text, last, s, value);
    }
  }

  lemma SaidByMeaning(platform: Platform, text: (string, string), pattern: (Subject, string), s: Subject, value: string)
    ensures SaysValue(SaidBy(platform, text, pattern, s), value) <==>
              pattern == (s, value) && platform.strip(text.1) != "" && platform.says(s, value, text.1)
  {
    var e := Evidence(pattern.1, "payload." + text.0, text.1);
    assert e in [e];
  }

  lemma PatternsAreStates(s: Subject, value: string)
    ensures (s, value) in PATTERNS <==> IsState(s, value)
  {
  }

  lemma {:induction false} EvidenceMeaning(platform: Platform, texts: seq<(string, string)>, s: Subject, value: string)
    ensures SaysValue(EvidenceOn(platform, texts, s), value) <==> Names(platform, texts, s, value)
  {
    if texts != [] {
      var before, last := texts[..|texts| - 1], texts[|texts| - 1];
      EvidenceMeaning(platform, before, s, value);
      SaysAppend(EvidenceOn(platform, before, s), Said(platform, last, PATTERNS, s), value);
      SaidMeaning(platform, last, PATTERNS, s, value);
      PatternsAreStates(s, value);
      assert texts == before + [last];
      assert last in texts;
    }
  }

  ghost predicate Makes(cs: seq<Claim>, s: Subject, value: string) {
    exists c :: c in cs && c.subject == s && c.value == value
  }

  lemma OneClaim(platform: Platform, node: Node, es: seq<Evidence>, s: Subject, value: string)
    ensures Makes(OperationalClaim(platform, node, es, s), s, value) <==>
              SaysValue(es, value) && forall w :: SaysValue(es, w) ==> w == value
  {
    if es != [] {
      assert es[0] in es && SaysValue(es, es[0].value);
      var cs := OperationalClaim(platform, node, es, s);
      if cs != [] {
        assert cs[0] in cs && cs[0].value == es[0].value;
      } else {
        var e :| e in es && e.value != es[0].value;
        assert SaysValue(es, e.value);
      }
    }
  }

  lemma StatesMeaning(platform: Platform, node: Node, s: Subject, value: string)
    requires s != HazardDomain && node.record.place.Some? && platform.normalize(node.record.place.value) != ""
    ensures Makes(OperationalClaim(platform, node, EvidenceOn(platform, node.record.texts, s), s), s, value)
            <==> States(platform, node.record, s, value)
  {
    OneClaim(platform, node, EvidenceOn(platform, node.record.texts, s), s, value);
    forall w ensures SaysValue(EvidenceOn(platform, node.record.texts, s), w) <==> Names(platform, node.record.texts, s, w) {
      EvidenceMeaning(platform, node.record.texts, s, w);
    }
  }

  lemma OperationalMeaning(platform: Platform, node: Node, s: Subject, value: string)
    requires s != HazardDomain
    ensures Makes(OperationalClaims(platform, node), s, value) <==> States(platform, node.record, s, value)
  {
    var r := node.record;
    if r.place.Some? && platform.normalize(r.place.value) != "" {
      var evacuation := OperationalClaim(platform, node, EvidenceOn(platform, r.texts, EvacuationState), EvacuationState);
      var road := OperationalClaim(platform, node, EvidenceOn(platform, r.texts, RoadAccessState), RoadAccessState);
      StatesMeaning(platform, node, s, value);
      assert forall c :: c in OperationalClaims(platform, node) <==> c in evacuation || c in road;
      assert Makes(if s == EvacuationState then evacuation else road, s, value)
             <==> Makes(OperationalClaims(platform, node), s, value);
    }
  }

  lemma HazardMeaning(platform: Platform, node: Node, value: string)
    ensures Makes(HazardClaims(platform, node), HazardDomain, value) <==> Domain(platform, node.record, value)
  {
    var cs := HazardClaims(platform, node);
    assert |cs| >= 1 ==> cs[0] in cs;
    assert |cs| >= 2 ==> cs[1] in cs;
  }

  /** What a record claims is what it asserts. */
  lemma ClaimMeaning(platform: Platform, node: Node, s: Subject, value: string)
    ensures Makes(ExtractClaims(platform, node), s, value) <==> Asserts(platform, node.record, s, value)
  {
    SortKeepsMembers(HazardClaims(platform, node) + OperationalClaims(platform, node), ByClaimId);
    if s == HazardDomain {
      HazardMeaning(platform, node, value);
      forall c | c in OperationalClaims(platform, node) ensures c.subject != HazardDomain {
        OperationalSubjects(platform, node, c);
      }
    } else {
      OperationalMeaning(platform, node, s, value);
    }
  }

  /** The scope of every claim. */
  predicate Scoped(platform: Platform, node: Node, c: Claim) {
    && c.nodeId == node.nodeId
    && if c.subject == HazardDomain then c.scope == MeasuredEdgeArea && c.scopeValue == None
       else
         && node.record.place.Some? && platform.normalize(node.record.place.value) != ""
         && c.scope == NamedPlace && c.scopeValue == Some(platform.clean(node.record.place.value))
  }

  lemma HazardScoped(platform: Platform, node: Node, c: Claim)
    requires c in HazardClaims(platform, node)
    ensures Scoped(platform, node, c)
  {
  }

  lemma OperationalScoped(platform: Platform, node: Node, c: Claim)
    requires c in OperationalClaims(platform, node)
    ensures Scoped(platform, node, c)
  {
    OperationalSubjects(platform, node, c);
  }

  lemma ClaimScoped(platform: Platform, node: Node, c: Claim)
    requires c in ExtractClaims(platform, node)
    ensures Scoped(platform, node, c)
  {
    ExtractedSplit(platform, node, c);
    if c.subject == HazardDomain {
      HazardScoped(platform, node, c);
    } else {
      OperationalScoped(platform, node, c);
    }
  }

  lemma ScopesCompare(platform: Platform, x: Node, y: Node, a: Claim, b: Claim)
    requires Steady(platform) && Scoped(platform, x, a) && Scoped(platform, y, b)
    ensures ScopeKey(platform, a) == ScopeKey(platform, b) <==>
              a.subject == b.subject && Comparable(platform, x.record, y.record, a.subject)
  {
  }

  lemma SamePair(v: string, w: string, a: string, b: string)
    requires a != b
    ensures {v, w} == {a, b} <==> (v == a && w == b) || (v == b && w == a)
  {
    if {v, w} == {a, b} {
      assert v in {a, b} && w in {a, b} && a in {v, w} && b in {v, w};
    }
  }

  lemma OppositeStates(s: Subject, v: string, w: string)
    ensures Opposites(s, v, w) <==> Opposed(s, v, w)
  {
    SamePair(v, w, "active", "lifted");
    SamePair(v, w, "closed", "open");
  }

  /** The relationship says this on this subject. */
  predicate Tells(r: Relationship, j: Label, s: Subject, value: Option<string>) {
    r.judgment == j && r.subject == Some(s) && r.value == value
  }

  lemma RelatedTells(platform: Platform, edge: Edge, x: Node, y: Node, a: Claim, b: Claim, r: Relationship)
    requires Steady(platform) && a in ExtractClaims(platform, x) && b in ExtractClaims(platform, y)
    requires Related(platform, edge, a, b) == Some(r)
    ensures Judged(platform, x.record, y.record, r.judgment, a.subject, r.value) && Tells(r, r.judgment, a.subject, r.value)
  {
    ClaimScoped(platform, x, a);
    ClaimScoped(platform, y, b);
    ScopesCompare(platform, x, y, a, b);
    ClaimMeaning(platform, x, a.subject, a.value);
    ClaimMeaning(platform, y, b.subject, b.value);
    OppositeStates(a.subject, a.value, b.value);
  }

  lemma ClaimsRelate(platform: Platform, edge: Edge, x: Node, y: Node, s: Subject, v: string, w: string)
    returns (r: Relationship)
    requires Steady(platform) && Comparable(platform, x.record, y.record, s)
    requires Asserts(platform, x.record, s, v) && Asserts(platform, y.record, s, w) && (v == w || Opposed(s, v, w))
    ensures Establishes(platform, edge, ExtractClaims(platform, x), ExtractClaims(platform, y), r)
    ensures if v == w then Tells(r, Corroborates, s, Some(v)) else Tells(r, Contradicts, s, None)
  {
    ClaimMeaning(platform, x, s, v);
    ClaimMeaning(platform, y, s, w);
    var a :| a in ExtractClaims(platform, x) && a.subject == s && a.value == v;
    var b :| b in ExtractClaims(platform, y) && b.subject == s && b.value == w;
    ClaimScoped(platform, x, a);
    ClaimScoped(platform, y, b);
    ScopesCompare(platform, x, y, a, b);
    OppositeStates(s, v, w);
    r := Related(platform, edge, a, b).value;
  }

  ghost predicate SomeTells(platform: Platform, edge: Edge, x: Node, y: Node, j: Label, s: Subject, value: Option<string>) {
    exists r :: Establishes(platform, edge, ExtractClaims(platform, x), ExtractClaims(platform, y), r) && Tells(r, j, s, value)
  }

  /** What the claims of two records establish is what the records amount to. */
  lemma EstablishedMeaning(platform: Platform, edge: Edge, x: Node, y: Node, j: Label, s: Subject, value: Option<string>)
    requires Steady(platform)
    ensures SomeTells(platform, edge, x, y, j, s, value) <==> Judged(platform, x.record, y.record, j, s, value)
  {
    if SomeTells(platform, edge, x, y, j, s, value) {
      var r :| Establishes(platform, edge, ExtractClaims(platform, x), ExtractClaims(platform, y), r) && Tells(r, j, s, value);
      var a, b :|
        a in ExtractClaims(platform, x) && b in ExtractClaims(platform, y) && Related(platform, edge, a, b) == Some(r);
      RelatedTells(platform, edge, x, y, a, b, r);
    }
    if Judged(platform, x.record, y.record, j, s, value) {
      if j == Corroborates {
        var r := ClaimsRelate(platform, edge, x, y, s, value.value, value.value);
      } else {
        var v, w :| Asserts(platform, x.record, s, v) && Asserts(platform, y.record, s, w) && Opposed(s, v, w);
        var r := ClaimsRelate(platform, edge, x, y, s, v, w);
      }
    }
  }

  // ---- the whole analysis ----

  /** The relationship stands on this edge. */
  predicate OnEdge(r: Relationship, edge: Edge) {
    r.edgeId == edge.edgeId && r.fromNodeId == edge.fromNodeId && r.toNodeId == edge.toNodeId
  }

  /** The edge joins these two nodes of the incident. */
  ghost predicate Joins(nodes: seq<Node>, edge: Edge, x: Node, y: Node) {
    && Apart(nodes, NodeIdOf) && x in nodes && y in nodes && x.nodeId != y.nodeId
    && edge.fromNodeId == x.nodeId && edge.toNodeId == y.nodeId
  }

  ghost predicate Shows(a: Analysis, edge: Edge, j: Label, s: Subject, value: Option<string>) {
    exists r :: r in a.relationships && OnEdge(r, edge) && Tells(r, j, s, value)
  }

  lemma ReportedOnEdge(platform: Platform, claims: Claims, edge: Edge, r: Relationship)
    requires Reported(platform, claims, edge, r)
    ensures OnEdge(r, edge)
  {
  }

  /** A relationship that stands on an edge was reported by it. */
  lemma OnlyItsEdge(platform: Platform, claims: Claims, edges: seq<Edge>, a: Analysis, edge: Edge, r: Relationship)
    requires Sound(platform, claims, edges, a) && r in a.relationships && OnEdge(r, edge)
    ensures Reported(platform, claims, edge, r)
  {
    assert FromEdge(platform, claims, edges, r);
    var e :| e in edges && Reported(platform, claims, e, r);
    ReportedOnEdge(platform, claims, e, r);
    assert e == edge;
  }

  /** The identity of a claim is that of its content. */
  predicate Identified(platform: Platform, c: Claim) {
    c.claimId == platform.contentId(OfClaim(c.nodeId, c.subject, c.value, c.scope, OrEmpty(c.scopeValue), c.field, c.excerpt))
  }

  lemma HazardIdentified(platform: Platform, node: Node, c: Claim)
    requires c in HazardClaims(platform, node)
    ensures Identified(platform, c)
  {
  }

  lemma OneIdentified(platform: Platform, node: Node, es: seq<Evidence>, s: Subject, c: Claim)
    requires c in OperationalClaim(platform, node, es, s)
    ensures Identified(platform, c)
  {
  }

  lemma OperationalIdentified(platform: Platform, node: Node, c: Claim)
    requires c in OperationalClaims(platform, node)
    ensures Identified(platform, c)
  {
    var evacuation, road := EvidenceOn(platform, node.record.texts, EvacuationState), EvidenceOn(platform, node.record.texts, RoadAccessState);
    if c in OperationalClaim(platform, node, evacuation, EvacuationState) {
      OneIdentified(platform, node, evacuation, EvacuationState, c);
    } else {
      OneIdentified(platform, node, road, RoadAccessState, c);
    }
  }

  lemma ClaimIdentity(platform: Platform, node: Node, c: Claim)
    requires c in ExtractClaims(platform, node)
    ensures Identified(platform, c)
  {
    ExtractedSplit(platform, node, c);
    if c.subject == HazardDomain {
      HazardIdentified(platform, node, c);
    } else {
      OperationalIdentified(platform, node, c);
    }
  }

  /** The claims a relationship cites: those of the lesser node first. */
  ghost predicate Cites(platform: Platform, edge: Edge, r: Relationship, a: Claim, b: Claim) {
    && r.relationshipId == platform.contentId(OfRelationship(edge.edgeId, r.judgment, OrEmpty(r.fromClaimId), OrEmpty(r.toClaimId)))
    && r.fromClaimId == Some(if AtMost(a.nodeId, b.nodeId) then a.claimId else b.claimId)
    && r.toClaimId == Some(if AtMost(a.nodeId, b.nodeId) then b.claimId else a.claimId)
  }

  lemma RelatedCites(platform: Platform, edge: Edge, a: Claim, b: Claim, r: Relationship)
    requires Related(platform, edge, a, b) == Some(r)
    ensures Cites(platform, edge, r, a, b)
  {
  }

  lemma SameClaim(platform: Platform, node: Node, c: Claim, d: Claim)
    requires CollisionFree(platform) && c in ExtractClaims(platform, node) && d in ExtractClaims(platform, node)
    requires c.claimId == d.claimId
    ensures c.subject == d.subject && c.value == d.value
  {
    ClaimIdentity(platform, node, c);
    ClaimIdentity(platform, node, d);
  }

  lemma SameCited(platform: Platform, edge: Edge, q: Relationship, r: Relationship, a: Claim, b: Claim, c: Claim, d: Claim)
    requires CollisionFree(platform) && q.relationshipId == r.relationshipId && a.nodeId == c.nodeId && b.nodeId == d.nodeId
    requires Cites(platform, edge, q, a, b) && Cites(platform, edge, r, c, d)
    ensures q.judgment == r.judgment && a.claimId == c.claimId && b.claimId == d.claimId
  {
  }

  lemma RelatedValue(platform: Platform, edge: Edge, a: Claim, b: Claim, r: Relationship)
    requires Related(platform, edge, a, b) == Some(r)
    ensures r.subject == Some(a.subject) && r.value == if r.judgment == Corroborates then Some(a.value) else None
  {
  }

  lemma RelatedAlike(
    platform: Platform, edge: Edge, x: Node, y: Node, q: Relationship, r: Relationship, a: Claim, b: Claim, c: Claim, d: Claim)
    requires CollisionFree(platform) && q.relationshipId == r.relationshipId
    requires a in ExtractClaims(platform, x) && c in ExtractClaims(platform, x)
    requires b in ExtractClaims(platform, y) && d in ExtractClaims(platform, y)
    requires Related(platform, edge, a, b) == Some(q) && Related(platform, edge, c, d) == Some(r)
    ensures q.judgment == r.judgment && q.subject == r.subject && q.value == r.value
  {
    RelatedCites(platform, edge, a, b, q);
    RelatedCites(platform, edge, c, d, r);
    ClaimScoped(platform, x, a);
    ClaimScoped(platform, x, c);
    ClaimScoped(platform, y, b);
    ClaimScoped(platform, y, d);
    SameCited(platform, edge, q, r, a, b, c, d);
    SameClaim(platform, x, a, c);
    RelatedValue(platform, edge, a, b, q);
    RelatedValue(platform, edge, c, d, r);
  }

  /** Without collisions an identity settles what a relationship tells. */
  lemma SameIdentityTells(platform: Platform, edge: Edge, x: Node, y: Node, q: Relationship, r: Relationship)
    requires CollisionFree(platform) && q.relationshipId == r.relationshipId
    requires Establishes(platform, edge, ExtractClaims(platform, x), ExtractClaims(platform, y), q)
    requires Establishes(platform, edge, ExtractClaims(platform, x), ExtractClaims(platform, y), r)
    ensures q.judgment == r.judgment && q.subject == r.subject && q.value == r.value
  {
    var ls, rs := ExtractClaims(platform, x), ExtractClaims(platform, y);
    var a, b :| a in ls && b in rs && Related(platform, edge, a, b) == Some(q);
    var c, d :| c in ls && d in rs && Related(platform, edge, c, d) == Some(r);
    RelatedAlike(platform, edge, x, y, q, r, a, b, c, d);
  }

  lemma EdgeClaims(platform: Platform, nodes: seq<Node>, edge: Edge, x: Node, y: Node)
    requires Joins(nodes, edge, x, y)
    ensures ClaimsAt(ClaimsByNode(platform, nodes), edge.fromNodeId) == ExtractClaims(platform, x)
    ensures ClaimsAt(ClaimsByNode(platform, nodes), edge.toNodeId) == ExtractClaims(platform, y)
  {
    ClaimsOfNode(platform, nodes, x);
    ClaimsOfNode(platform, nodes, y);
  }

  lemma ShownIsTold(
    platform: Platform, nodes: seq<Node>, edges: seq<Edge>, a: Analysis, edge: Edge, x: Node, y: Node, j: Label, s: Subject,
    value: Option<string>)
    requires Sound(platform, ClaimsByNode(platform, nodes), edges, a) && Joins(nodes, edge, x, y)
    requires Shows(a, edge, j, s, value)
    ensures SomeTells(platform, edge, x, y, j, s, value)
  {
    EdgeClaims(platform, nodes, edge, x, y);
    var r :| r in a.relationships && OnEdge(r, edge) && Tells(r, j, s, value);
    OnlyItsEdge(platform, ClaimsByNode(platform, nodes), edges, a, edge, r);
    assert r.subject.Some?;
  }

  lemma ToldIsShown(
    platform: Platform, nodes: seq<Node>, edges: seq<Edge>, a: Analysis, edge: Edge, x: Node, y: Node, j: Label, s: Subject,
    value: Option<string>)
    requires CollisionFree(platform) && Sound(platform, ClaimsByNode(platform, nodes), edges, a) && Joins(nodes, edge, x, y)
    requires edge in edges && SomeTells(platform, edge, x, y, j, s, value)
    ensures Shows(a, edge, j, s, value)
  {
    var claims := ClaimsByNode(platform, nodes);
    EdgeClaims(platform, nodes, edge, x, y);
    var r :| Establishes(platform, edge, ExtractClaims(platform, x), ExtractClaims(platform, y), r) && Tells(r, j, s, value);
    assert Reported(platform, claims, edge, r);
    assert Listed(platform, claims, edge, a.relationships, r.relationshipId);
    var q :| q in a.relationships && q.relationshipId == r.relationshipId && Reported(platform, claims, edge, q);
    ReportedOnEdge(platform, claims, edge, q);
    SameIdentityTells(platform, edge, x, y, q, r);
  }

  lemma UnresolvedExactly(
    platform: Platform, nodes: seq<Node>, edges: seq<Edge>, a: Analysis, edge: Edge, x: Node, y: Node)
    requires Sound(platform, ClaimsByNode(platform, nodes), edges, a) && Joins(nodes, edge, x, y) && edge in edges
    ensures (exists r :: r in a.relationships && OnEdge(r, edge) && r.judgment == InsufficientEvidence) <==>
            Silent(platform, edge, ExtractClaims(platform, x), ExtractClaims(platform, y))
  {
    var claims := ClaimsByNode(platform, nodes);
    EdgeClaims(platform, nodes, edge, x, y);
    if r :| r in a.relationships && OnEdge(r, edge) && r.judgment == InsufficientEvidence {
      OnlyItsEdge(platform, claims, edges, a, edge, r);
      if Decides(platform, claims, edge, r) {
        EstablishedIsDecisive(platform, edge, ExtractClaims(platform, x), ExtractClaims(platform, y), r);
      }
    }
    if Undecided(platform, claims, edge) {
      var u := Unresolved(platform, edge);
      assert Reported(platform, claims, edge, u);
      assert Listed(platform, claims, edge, a.relationships, u.relationshipId);
    }
  }

  lemma SilentExactly(platform: Platform, edge: Edge, x: Node, y: Node)
    requires Steady(platform)
    ensures Silent(platform, edge, ExtractClaims(platform, x), ExtractClaims(platform, y)) <==>
              forall j, s, value :: !Judged(platform, x.record, y.record, j, s, value)
  {
    var ls, rs := ExtractClaims(platform, x), ExtractClaims(platform, y);
    if Silent(platform, edge, ls, rs) {
      forall j, s, value ensures !Judged(platform, x.record, y.record, j, s, value) {
        EstablishedMeaning(platform, edge, x, y, j, s, value);
      }
    } else {
      var r :| Establishes(platform, edge, ls, rs, r);
      EstablishedIsDecisive(platform, edge, ls, rs, r);
      assert Tells(r, r.judgment, r.subject.value, r.value);
      EstablishedMeaning(platform, edge, x, y, r.judgment, r.subject.value, r.value);
    }
  }

  /**
   The analysis shows agreement or contradiction on an edge exactly where the two records amount to it, and
   insufficient evidence exactly where they amount to neither on any subject.
   */
  lemma AnalysisMeaning(platform: Platform, nodes: seq<Node>, edges: seq<Edge>, a: Analysis, edge: Edge, x: Node, y: Node)
    requires Steady(platform) && CollisionFree(platform)
    requires Sound(platform, ClaimsByNode(platform, nodes), edges, a) && Joins(nodes, edge, x, y) && edge in edges
    ensures forall j, s, value :: Shows(a, edge, j, s, value) <==> Judged(platform, x.record, y.record, j, s, value)
    ensures (exists r :: r in a.relationships && OnEdge(r, edge) && r.judgment == InsufficientEvidence) <==>
            forall j, s, value :: !Judged(platform, x.record, y.record, j, s, value)
  {
    forall j, s, value ensures Shows(a, edge, j, s, value) <==> Judged(platform, x.record, y.record, j, s, value) {
      EstablishedMeaning(platform, edge, x, y, j, s, value);
      if Shows(a, edge, j, s, value) {
        ShownIsTold(platform, nodes, edges, a, edge, x, y, j, s, value);
      }
      if SomeTells(platform, edge, x, y, j, s, value) {
        ToldIsShown(platform, nodes, edges, a, edge, x, y, j, s, value);
      }
    }
    UnresolvedExactly(platform, nodes, edges, a, edge, x, y);
    SilentExactly(platform, edge, x, y);
  }
}
