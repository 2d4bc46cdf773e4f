/** What navigation chooses, in the terms of the constraints alone: src/shyam/navigation/policy.py. */
module NavigationRules {
  import opened Options
  import opened Ordering
  import opened Navigation

  // ---- Which candidates are admitted ----

  /** The constraints and the state of the candidate allow it. */
  predicate Admitted(c: Candidate, k: Constraints) {
    && c.nodeState !in {Unavailable, Stale}
    && c.providerStatus != Unusable
    && c.capabilityAvailability != Unusable
    && (k.localOnly || !k.remoteAllowed ==> c.isLocal)
    && (k.requiredNodeState.Some? ==> c.nodeState == k.requiredNodeState.value)
    && (k.requiredProviderStatus.Some? ==> c.providerStatus == k.requiredProviderStatus.value)
  }

  /** The candidate fails the check that the reason names. */
  predicate Fails(c: Candidate, k: Constraints, reason: Reason) {
    match reason
    case NodeUnavailable => c.nodeState == Unavailable
    case NodeStale => c.nodeState == Stale
    case ProviderUnavailable => c.providerStatus == Unusable
    case CapabilityUnavailable => c.capabilityAvailability == Unusable
    case LocalOnlyViolated => k.localOnly && !c.isLocal
    case RemoteForbidden => !k.remoteAllowed && !c.isLocal
    case WrongNodeState => k.requiredNodeState.Some? && c.nodeState != k.requiredNodeState.value
    case WrongProviderStatus => k.requiredProviderStatus.Some? && c.providerStatus != k.requiredProviderStatus.value
  }

  /** The place of the check among those of the policy. */
  function Place(reason: Reason): nat {
    match reason
    case NodeUnavailable => 0
    case NodeStale => 1
    case ProviderUnavailable => 2
    case CapabilityUnavailable => 3
    case LocalOnlyViolated => 4
    case RemoteForbidden => 5
    case WrongNodeState => 6
    case WrongProviderStatus => 7
  }

  /** It is the first check that the candidate fails. */
  ghost predicate FirstFailed(c: Candidate, k: Constraints, reason: Reason) {
    Fails(c, k, reason) && forall other | Fails(c, k, other) :: Place(reason) <= Place(other)
  }

  lemma ViolationExactly(c: Candidate, k: Constraints)
    ensures Violation(c, k).None? <==> Admitted(c, k)
    ensures forall reason :: Violation(c, k) == Some(reason) <==> FirstFailed(c, k, reason)
  {
    forall reason
      ensures Violation(c, k) == Some(reason) <==> FirstFailed(c, k, reason)
    {
      if Violation(c, k).Some? {
        var first := Violation(c, k).value;
        assert Fails(c, k, first);
        assert Place(first) == Place(reason) ==> first == reason;
      }
    }
  }

  /** The candidates that are not admitted, in the order they were given in. */
  function Turned(cs: seq<Candidate>, k: Constraints): seq<Candidate> {
    if cs == [] then [] else (if Admitted(cs[0], k) then [] else [cs[0]]) + Turned(cs[1..], k)
  }

  lemma {:induction false} RejectedInOrder(cs: seq<Candidate>, k: Constraints)
    ensures CandidatesOf(Rejections(cs, k)) == Turned(cs, k)
  {
    if cs != [] {
      FilterStep(cs, k);
      ViolationExactly(cs[0], k);
      RejectedInOrder(cs[1..], k);
      if Violation(cs[0], k).Some? {
        var first, rest := Rejected(cs[0], Violation(cs[0], k).value), Rejections(cs[1..], k);
        assert ([first] + rest)[1..] == rest;
      }
    }
  }

  /** The choice holds exactly the admitted candidates, each as often as it was given; the others are rejected in the
      order they were given in, each for the first check that it fails. */
  lemma AdmissionExactly(cs: seq<Candidate>, k: Constraints)
    ensures
      var r := Evaluated(cs, k);
      && (forall c :: multiset(Chosen(r))[c] == if Admitted(c, k) then multiset(cs)[c] else 0)
      && (r.selected.None? <==> forall c :: c in cs ==> !Admitted(c, k))
      && CandidatesOf(r.rejected) == Turned(cs, k)
      && (forall x :: x in r.rejected <==> x.candidate in cs && FirstFailed(x.candidate, k, x.reason))
  {
    var r := Evaluated(cs, k);
    ChosenIsRanked(cs, k);
    SelectionIsOptimal(cs, k);
    RejectedInOrder(cs, k);
    FilterMembers(cs, k);
    forall c
      ensures Violation(c, k).None? <==> Admitted(c, k)
      ensures multiset(Chosen(r))[c] == if Admitted(c, k) then multiset(cs)[c] else 0
      ensures forall reason :: Violation(c, k) == Some(reason) <==> FirstFailed(c, k, reason)
    {
      ViolationExactly(c, k);
      EligibleCount(cs, k, c);
    }
  }

  // ---- In which order ----

  predicate OnPreferredNode(c: Candidate, k: Constraints) {
    k.preferredNode == Some(c.nodeId)
  }

  predicate ByPreferredProvider(c: Candidate, k: Constraints) {
    k.preferredProvider == Some(c.providerId)
  }

  /** The preferred node first, then the preferred provider, then local candidates, then the ids by code point. */
  ghost predicate Preferred(c: Candidate, d: Candidate, k: Constraints) {
    if OnPreferredNode(c, k) != OnPreferredNode(d, k) then OnPreferredNode(c, k)
    else if ByPreferredProvider(c, k) != ByPreferredProvider(d, k) then ByPreferredProvider(c, k)
    else if c.isLocal != d.isLocal then c.isLocal
    else if c.nodeId != d.nodeId then ComesBefore(c.nodeId, d.nodeId)
    else ComesBefore(c.providerId, d.providerId)
  }

  /** Nothing tells them apart. */
  predicate Ties(c: Candidate, d: Candidate) {
    c.nodeId == d.nodeId && c.providerId == d.providerId && c.isLocal == d.isLocal
  }

  lemma BeforeExactly(c: Candidate, d: Candidate, k: Constraints)
    ensures Before(c, d, k) <==> Preferred(c, d, k) || Ties(c, d)
    ensures RankingKey(c, k) == RankingKey(d, k) <==> Ties(c, d)
  {
    StrLeExactly(c.nodeId, d.nodeId);
    StrLeExactly(c.providerId, d.providerId);
  }

  /** Of any two chosen candidates the first is preferred to the second, or they tie; and candidates that tie are
      chosen in an order exactly when they were given in it. */
  lemma ChoiceInOrder(cs: seq<Candidate>, k: Constraints)
    ensures
      var chosen := Chosen(Evaluated(cs, k));
      && (forall i, j | 0 <= i < j < |chosen| :: Preferred(chosen[i], chosen[j], k) || Ties(chosen[i], chosen[j]))
      && (forall c, d | Admitted(c, k) && Admitted(d, k) && Ties(c, d) ::
            Precedes(c, d, chosen) <==> Precedes(c, d, cs))
  {
    var chosen := Chosen(Evaluated(cs, k));
    ChosenIsRanked(cs, k);
    forall i, j | 0 <= i < j < |chosen|
      ensures Preferred(chosen[i], chosen[j], k) || Ties(chosen[i], chosen[j])
    {
      BeforeExactly(chosen[i], chosen[j], k);
    }
    forall c, d | Admitted(c, k) && Admitted(d, k) && Ties(c, d)
      ensures Precedes(c, d, chosen) <==> Precedes(c, d, cs)
    {
      ViolationExactly(c, k);
      ViolationExactly(d, k);
      TiesFollowInput(cs, c, d, k);
    }
  }

  /** The preference is strict: no two candidates are preferred to each other, and tied ones not at all. */
  lemma PreferenceIsStrict(c: Candidate, d: Candidate, k: Constraints)
    ensures Preferred(c, d, k) ==> !Preferred(d, c, k) && !Ties(c, d)
    ensures Preferred(c, d, k) || Preferred(d, c, k) || Ties(c, d)
  {
    BeforeExactly(c, d, k);
    BeforeExactly(d, c, k);
    ComesBeforeStrict(c.nodeId, d.nodeId);
    ComesBeforeStrict(c.providerId, d.providerId);
    KeyTotal(RankingKey(c, k), RankingKey(d, k));
  }
}
