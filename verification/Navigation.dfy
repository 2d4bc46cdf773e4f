/** Filtering, ranking and selecting the target of a capability: src/shyam/navigation/policy.py. */
module Navigation {
  import opened Options
  import opened Ordering

  datatype NodeState = Known | Available | Unavailable | Stale

  datatype Availability = Registered | Usable | Unusable

  datatype Candidate = Candidate(
    nodeId: string,
    nodeName: string,
    providerId: string,
    providerName: string,
    capabilityId: string,
    isLocal: bool,
    nodeState: NodeState,
    providerStatus: Availability,
    capabilityAvailability: Availability,
    nodeMetadata: map<string, string>,
    providerMetadata: map<string, string>)

  datatype Constraints = Constraints(
    preferredNode: Option<string>,
    preferredProvider: Option<string>,
    localOnly: bool,
    remoteAllowed: bool,
    requiredNodeState: Option<NodeState>,
    requiredProviderStatus: Option<Availability>)

  datatype Reason =
    | NodeUnavailable | NodeStale | ProviderUnavailable | CapabilityUnavailable
    | LocalOnlyViolated | RemoteForbidden | WrongNodeState | WrongProviderStatus

  datatype Rejected = Rejected(candidate: Candidate, reason: Reason)

  datatype Result = Result(selected: Option<Candidate>, alternatives: seq<Candidate>, rejected: seq<Rejected>)

  // ---- Filtering ----

  /** The first violated check, in the order of the policy. */
  function Violation(c: Candidate, k: Constraints): Option<Reason> {
    if c.nodeState == Unavailable then Some(NodeUnavailable)
    else if c.nodeState == Stale then Some(NodeStale)
    else if c.providerStatus == Unusable then Some(ProviderUnavailable)
    else if c.capabilityAvailability == Unusable then Some(CapabilityUnavailable)
    else if k.localOnly && !c.isLocal then Some(LocalOnlyViolated)
    else if !k.remoteAllowed && !c.isLocal then Some(RemoteForbidden)
    else if k.requiredNodeState.Some? && c.nodeState != k.requiredNodeState.value then Some(WrongNodeState)
    else if k.requiredProviderStatus.Some? && c.providerStatus != k.requiredProviderStatus.value
    then Some(WrongProviderStatus)
    else None
  }

  function Eligible(cs: seq<Candidate>, k: Constraints): seq<Candidate> {
    if cs == [] then []
    else (if Violation(cs[0], k).None? then [cs[0]] else []) + Eligible(cs[1..], k)
  }

  function Rejections(cs: seq<Candidate>, k: Constraints): seq<Rejected> {
    if cs == [] then []
    else (if Violation(cs[0], k).Some? then [Rejected(cs[0], Violation(cs[0], k).value)] else [])
         + Rejections(cs[1..], k)
  }

  function CandidatesOf(rs: seq<Rejected>): seq<Candidate> {
    if rs == [] then [] else [rs[0].candidate] + CandidatesOf(rs[1..])
  }

  // ---- Ranking ----

  datatype Key = Key(node: int, provider: int, locality: int, nodeId: string, providerId: string)

  function RankingKey(c: Candidate, k: Constraints): Key {
    Key(if k.preferredNode == Some(c.nodeId) then 0 else 1,
        if k.preferredProvider == Some(c.providerId) then 0 else 1,
        if c.isLocal then 0 else 1,
        c.nodeId, c.providerId)
  }

  /** Python's order on the five-part tuple. */
  predicate KeyLe(a: Key, b: Key) {
    if a.node != b.node then a.node < b.node
    else if a.provider != b.provider then a.provider < b.provider
    else if a.locality != b.locality then a.locality < b.locality
    else if a.nodeId != b.nodeId then StrLe(a.nodeId, b.nodeId)
    else StrLe(a.providerId, b.providerId)
  }

  predicate Before(c: Candidate, d: Candidate, k: Constraints) {
    KeyLe(RankingKey(c, k), RankingKey(d, k))
  }

  function Insert(c: Candidate, cs: seq<Candidate>, k: Constraints): seq<Candidate> {
    if cs == [] || Before(c, cs[0], k) then [c] + cs else [cs[0]] + Insert(c, cs[1..], k)
  }

  /** sorted(cs, key=ranking_key): stable. */
  function Ranked(cs: seq<Candidate>, k: Constraints): seq<Candidate> {
    if cs == [] then [] else Insert(cs[0], Ranked(cs[1..], k), k)
  }

  function Evaluated(cs: seq<Candidate>, k: Constraints): Result {
    var ranked := Ranked(Eligible(cs, k), k);
    if ranked == [] then Result(None, [], Rejections(cs, k))
    else Result(Some(ranked[0]), ranked[1..], Rejections(cs, k))
  }

  lemma FilterStep(cs: seq<Candidate>, k: Constraints)
    requires cs != []
    ensures Violation(cs[0], k).None? ==>
      Eligible(cs, k) == [cs[0]] + Eligible(cs[1..], k) && Rejections(cs, k) == Rejections(cs[1..], k)
    ensures Violation(cs[0], k).Some? ==>
      && Eligible(cs, k) == Eligible(cs[1..], k)
      && Rejections(cs, k) == [Rejected(cs[0], Violation(cs[0], k).value)] + Rejections(cs[1..], k)
  {
  }

  method Evaluate(candidates: seq<Candidate>, constraints: Constraints) returns (r: Result)
    ensures r == Evaluated(candidates, constraints)
  {
    var eligible: seq<Candidate>, rejected: seq<Rejected> := [], [];
    for i := 0 to |candidates|
      invariant eligible + Eligible(candidates[i..], constraints) == Eligible(candidates, constraints)
      invariant rejected + Rejections(candidates[i..], constraints) == Rejections(candidates, constraints)
    {
      var cand := candidates[i];
      FilterStep(candidates[i..], constraints);
      assert candidates[i..][0] == cand && candidates[i..][1..] == candidates[i + 1..];
      var violation := Violation(cand, constraints);
      if violation.Some? {
        rejected := rejected + [Rejected(cand, violation.value)];
        continue;
      }
      eligible := eligible + [cand];
    }
    assert candidates[|candidates|..] == [];
    assert eligible == Eligible(candidates, constraints) && rejected == Rejections(candidates, constraints);
    RankedLength(eligible, constraints);
    if eligible == [] {
      return Result(None, [], rejected);
    }
    var ranked := Ranked(eligible, constraints);
    r := Result(Some(ranked[0]), ranked[1..], rejected);
  }

  // ---- What the ranking is ----

  lemma KeyTotal(a: Key, b: Key)
    ensures KeyLe(a, b) || KeyLe(b, a)
  {
    StrTotal(a.nodeId, b.nodeId);
    StrTotal(a.providerId, b.providerId);
  }

  lemma KeyTransitive(a: Key, b: Key, c: Key)
    requires KeyLe(a, b) && KeyLe(b, c)
    ensures KeyLe(a, c)
  {
    if a.nodeId == c.nodeId && b.nodeId != a.nodeId && StrLe(a.nodeId, b.nodeId) && StrLe(b.nodeId, c.nodeId) {
      StrAntisymmetric(a.nodeId, b.nodeId);
    }
    if StrLe(a.nodeId, b.nodeId) && StrLe(b.nodeId, c.nodeId) {
      StrTransitive(a.nodeId, b.nodeId, c.nodeId);
    }
    if StrLe(a.providerId, b.providerId) && StrLe(b.providerId, c.providerId) {
      StrTransitive(a.providerId, b.providerId, c.providerId);
    }
  }

  lemma KeyAntisymmetric(a: Key, b: Key)
    requires KeyLe(a, b) && KeyLe(b, a)
    ensures a == b
  {
    if a.nodeId != b.nodeId {
      StrAntisymmetric(a.nodeId, b.nodeId);
    } else {
      StrAntisymmetric(a.providerId, b.providerId);
    }
  }

  predicate IsRanked(cs: seq<Candidate>, k: Constraints) {
    forall i, j :: 0 <= i < j < |cs| ==> Before(cs[i], cs[j], k)
  }

  lemma {:induction false} InsertKeeps(c: Candidate, cs: seq<Candidate>, k: Constraints)
    requires IsRanked(cs, k)
    ensures IsRanked(Insert(c, cs, k), k)
    ensures multiset(Insert(c, cs, k)) == multiset{c} + multiset(cs)
  {
    if cs != [] {
      assert cs == [cs[0]] + cs[1..];
      if Before(c, cs[0], k) {
        forall j | 0 <= j < |cs|
          ensures Before(c, cs[j], k)
        {
          if j > 0 {
            KeyTransitive(RankingKey(c, k), RankingKey(cs[0], k), RankingKey(cs[j], k));
          }
        }
      } else {
        KeyTotal(RankingKey(c, k), RankingKey(cs[0], k));
        InsertKeeps(c, cs[1..], k);
        var rest := Insert(c, cs[1..], k);
        forall j | 0 <= j < |rest|
          ensures Before(cs[0], rest[j], k)
        {
          assert rest[j] in multiset(rest);
          assert rest[j] == c || rest[j] in cs[1..];
        }
      }
    }
  }

  lemma {:induction false} RankedKeeps(cs: seq<Candidate>, k: Constraints)
    ensures IsRanked(Ranked(cs, k), k)
    ensures multiset(Ranked(cs, k)) == multiset(cs)
  {
    if cs != [] {
      RankedKeeps(cs[1..], k);
      InsertKeeps(cs[0], Ranked(cs[1..], k), k);
      assert cs == [cs[0]] + cs[1..];
    }
  }

  lemma RankedLength(cs: seq<Candidate>, k: Constraints)
    ensures |Ranked(cs, k)| == |cs|
  {
    RankedKeeps(cs, k);
    assert |multiset(Ranked(cs, k))| == |multiset(cs)|;
  }

  lemma {:induction false} EligibleCount(cs: seq<Candidate>, k: Constraints, c: Candidate)
    ensures multiset(Eligible(cs, k))[c] == if Violation(c, k).None? then multiset(cs)[c] else 0
  {
    if cs != [] {
      EligibleCount(cs[1..], k, c);
      assert cs == [cs[0]] + cs[1..];
    }
  }

  lemma {:induction false} RejectionCount(cs: seq<Candidate>, k: Constraints, c: Candidate)
    ensures multiset(CandidatesOf(Rejections(cs, k)))[c] == if Violation(c, k).None? then 0 else multiset(cs)[c]
  {
    if cs != [] {
      FilterStep(cs, k);
      RejectionCount(cs[1..], k, c);
      assert cs == [cs[0]] + cs[1..];
      if Violation(cs[0], k).Some? {
        var first, rest := Rejected(cs[0], Violation(cs[0], k).value), Rejections(cs[1..], k);
        assert ([first] + rest)[1..] == rest;
      }
    }
  }

  lemma FilterCounts(cs: seq<Candidate>, k: Constraints)
    ensures multiset(Eligible(cs, k)) + multiset(CandidatesOf(Rejections(cs, k))) == multiset(cs)
  {
    forall c
      ensures (multiset(Eligible(cs, k)) + multiset(CandidatesOf(Rejections(cs, k))))[c] == multiset(cs)[c]
    {
      EligibleCount(cs, k, c);
      RejectionCount(cs, k, c);
    }
  }

  lemma {:induction false} FilterMembers(cs: seq<Candidate>, k: Constraints)
    ensures forall c :: c in Eligible(cs, k) <==> c in cs && Violation(c, k).None?
    ensures forall r :: r in Rejections(cs, k) <==> r.candidate in cs && Violation(r.candidate, k) == Some(r.reason)
  {
    if cs != [] {
      FilterStep(cs, k);
      FilterMembers(cs[1..], k);
      assert forall c :: c in cs <==> c == cs[0] || c in cs[1..];
    }
  }

  function Chosen(r: Result): seq<Candidate> {
    (if r.selected.Some? then [r.selected.value] else []) + r.alternatives
  }

  lemma ChosenIsRanked(cs: seq<Candidate>, k: Constraints)
    ensures Chosen(Evaluated(cs, k)) == Ranked(Eligible(cs, k), k)
    ensures IsRanked(Chosen(Evaluated(cs, k)), k)
    ensures multiset(Chosen(Evaluated(cs, k))) == multiset(Eligible(cs, k))
  {
    RankedKeeps(Eligible(cs, k), k);
  }

  lemma SameMembers(xs: seq<Candidate>, ys: seq<Candidate>)
    requires multiset(xs) == multiset(ys)
    ensures forall c :: c in xs <==> c in ys
  {
    forall c
      ensures c in xs <==> c in ys
    {
      assert c in multiset(xs) <==> c in multiset(ys);
    }
  }

  lemma ChosenMembers(cs: seq<Candidate>, k: Constraints)
    ensures forall c :: c in Chosen(Evaluated(cs, k)) <==> c in cs && Violation(c, k).None?
  {
    ChosenIsRanked(cs, k);
    FilterMembers(cs, k);
    SameMembers(Chosen(Evaluated(cs, k)), Eligible(cs, k));
  }

  /** The policy loses and duplicates no candidate, and sorts out exactly those that violate a check. */
  lemma SelectionPartitions(cs: seq<Candidate>, k: Constraints)
    ensures
      var r := Evaluated(cs, k);
      && multiset(Chosen(r)) + multiset(CandidatesOf(r.rejected)) == multiset(cs)
      && (forall c :: c in Chosen(r) <==> c in cs && Violation(c, k).None?)
      && (forall x :: x in r.rejected <==> x.candidate in cs && Violation(x.candidate, k) == Some(x.reason))
  {
    ChosenIsRanked(cs, k);
    ChosenMembers(cs, k);
    FilterCounts(cs, k);
    FilterMembers(cs, k);
  }

  /** The selected candidate is an eligible one that is least under the five-part key, there is one
      unless every candidate violates a check, and the alternatives follow in order. */
  lemma SelectionIsOptimal(cs: seq<Candidate>, k: Constraints)
    ensures
      var r := Evaluated(cs, k);
      && IsRanked(Chosen(r), k)
      && (r.selected.None? <==> forall c :: c in cs ==> Violation(c, k).Some?)
      && (r.selected.Some? ==>
            && r.selected.value in cs && Violation(r.selected.value, k).None?
            && forall c :: c in cs && Violation(c, k).None? ==> Before(r.selected.value, c, k))
  {
    var r := Evaluated(cs, k);
    assert IsRanked(Chosen(r), k) by { ChosenIsRanked(cs, k); }
    ChosenMembers(cs, k);
    if r.selected.Some? {
      assert r.selected.value == Chosen(r)[0] && r.selected.value in Chosen(r);
      forall c | c in cs && Violation(c, k).None?
        ensures Before(r.selected.value, c, k)
      {
        FirstIsLeast(Chosen(r), c, k);
      }
    } else {
      assert Chosen(r) == [];
    }
  }

  lemma FirstIsLeast(cs: seq<Candidate>, c: Candidate, k: Constraints)
    requires IsRanked(cs, k) && c in cs
    ensures Before(cs[0], c, k)
  {
    KeyTotal(RankingKey(c, k), RankingKey(c, k));
    var j :| 0 <= j < |cs| && cs[j] == c;
  }

  // ---- When the order of the candidates matters ----

  /** No two different eligible candidates share a ranking key. Candidates with different
      (node_id, provider_id) pairs never do. */
  ghost predicate KeysTellApart(cs: seq<Candidate>, k: Constraints) {
    forall c, d ::
      (c in cs && d in cs && Violation(c, k).None? && Violation(d, k).None? &&
       RankingKey(c, k) == RankingKey(d, k)) ==> c == d
  }

  ghost predicate SameChoice(a: seq<Candidate>, b: seq<Candidate>, k: Constraints) {
    Evaluated(a, k).selected == Evaluated(b, k).selected && Evaluated(a, k).alternatives == Evaluated(b, k).alternatives
  }

  lemma SameHead(xs: seq<Candidate>, ys: seq<Candidate>, k: Constraints)
    requires IsRanked(xs, k) && IsRanked(ys, k) && multiset(xs) == multiset(ys) && xs != [] && ys != []
    requires forall c, d :: c in xs && d in xs && RankingKey(c, k) == RankingKey(d, k) ==> c == d
    ensures xs[0] == ys[0]
  {
    SameMembers(xs, ys);
    assert xs[0] in ys && ys[0] in xs;
    var i :| 0 <= i < |ys| && ys[i] == xs[0];
    var j :| 0 <= j < |xs| && xs[j] == ys[0];
    KeyTotal(RankingKey(xs[0], k), RankingKey(xs[0], k));
    KeyTotal(RankingKey(ys[0], k), RankingKey(ys[0], k));
    KeyAntisymmetric(RankingKey(xs[0], k), RankingKey(ys[0], k));
  }

  lemma TailCounts(xs: seq<Candidate>)
    requires xs != []
    ensures multiset(xs[1..]) == multiset(xs) - multiset{xs[0]}
  {
    assert xs == [xs[0]] + xs[1..];
  }

  lemma {:induction false} RankedUnique(xs: seq<Candidate>, ys: seq<Candidate>, k: Constraints)
    requires IsRanked(xs, k) && IsRanked(ys, k) && multiset(xs) == multiset(ys)
    requires forall c, d :: c in xs && d in xs && RankingKey(c, k) == RankingKey(d, k) ==> c == d
    ensures xs == ys
  {
    assert |multiset(xs)| == |multiset(ys)|;
    if xs != [] {
      SameHead(xs, ys, k);
      TailCounts(xs);
      TailCounts(ys);
      RankedUnique(xs[1..], ys[1..], k);
      assert xs == [xs[0]] + xs[1..] && ys == [ys[0]] + ys[1..];
    }
  }

  lemma {:induction false} EligiblePermutes(a: seq<Candidate>, b: seq<Candidate>, k: Constraints)
    requires multiset(a) == multiset(b)
    ensures multiset(Eligible(a, k)) == multiset(Eligible(b, k))
  {
    forall c
      ensures multiset(Eligible(a, k))[c] == multiset(Eligible(b, k))[c]
    {
      EligibleCount(a, k, c);
      EligibleCount(b, k, c);
    }
  }

  lemma SameChoiceWhenToldApart(a: seq<Candidate>, b: seq<Candidate>, k: Constraints)
    requires multiset(a) == multiset(b) && KeysTellApart(a, k)
    ensures SameChoice(a, b, k)
  {
    EligiblePermutes(a, b, k);
    FilterMembers(a, k);
    RankedKeeps(Eligible(a, k), k);
    RankedKeeps(Eligible(b, k), k);
    var xs := Ranked(Eligible(a, k), k);
    forall c | c in xs
      ensures c in a && Violation(c, k).None?
    {
      assert c in multiset(xs) && c in multiset(Eligible(a, k));
    }
    RankedUnique(xs, Ranked(Eligible(b, k), k), k);
  }

  // ---- Ties ----

  /** The eligible candidates with one ranking key, in order. */
  function Tied(cs: seq<Candidate>, key: Key, k: Constraints): seq<Candidate> {
    if cs == [] then []
    else (if Violation(cs[0], k).None? && RankingKey(cs[0], k) == key then [cs[0]] else []) + Tied(cs[1..], key, k)
  }

  lemma TiedFirst(c: Candidate, rest: seq<Candidate>, key: Key, k: Constraints)
    ensures
      Tied([c] + rest, key, k) ==
      (if Violation(c, k).None? && RankingKey(c, k) == key then [c] else []) + Tied(rest, key, k)
  {
    assert ([c] + rest)[1..] == rest;
  }

  /** A candidate goes in front of those with its own key. */
  lemma {:induction false} InsertTied(c: Candidate, cs: seq<Candidate>, key: Key, k: Constraints)
    ensures Tied(Insert(c, cs, k), key, k) == Tied([c] + cs, key, k)
  {
    TiedFirst(c, cs, key, k);
    if cs != [] && !Before(c, cs[0], k) {
      KeyTotal(RankingKey(c, k), RankingKey(c, k));
      InsertTied(c, cs[1..], key, k);
      TiedFirst(c, cs[1..], key, k);
      TiedFirst(cs[0], Insert(c, cs[1..], k), key, k);
    }
  }

  lemma {:induction false} RankedTied(cs: seq<Candidate>, key: Key, k: Constraints)
    ensures Tied(Ranked(cs, k), key, k) == Tied(cs, key, k)
  {
    if cs != [] {
      RankedTied(cs[1..], key, k);
      InsertTied(cs[0], Ranked(cs[1..], k), key, k);
      TiedFirst(cs[0], Ranked(cs[1..], k), key, k);
    }
  }

  lemma {:induction false} EligibleTied(cs: seq<Candidate>, key: Key, k: Constraints)
    ensures Tied(Eligible(cs, k), key, k) == Tied(cs, key, k)
  {
    if cs != [] {
      EligibleTied(cs[1..], key, k);
      FilterStep(cs, k);
      TiedFirst(cs[0], Eligible(cs[1..], k), key, k);
      TiedFirst(cs[0], cs[1..], key, k);
      assert cs == [cs[0]] + cs[1..];
    }
  }

  /** The ranking is stable: the eligible candidates with one key are ranked in the order they were given in. */
  lemma RankingIsStable(cs: seq<Candidate>, key: Key, k: Constraints)
    ensures Tied(Chosen(Evaluated(cs, k)), key, k) == Tied(cs, key, k)
  {
    ChosenIsRanked(cs, k);
    RankedTied(Eligible(cs, k), key, k);
    EligibleTied(cs, key, k);
  }

  lemma {:induction false} TiedMembers(cs: seq<Candidate>, key: Key, k: Constraints, c: Candidate)
    ensures c in Tied(cs, key, k) <==> c in cs && Violation(c, k).None? && RankingKey(c, k) == key
  {
    if cs != [] {
      TiedMembers(cs[1..], key, k, c);
    }
  }

  lemma {:induction false} TiedThen(xs: seq<Candidate>, ys: seq<Candidate>, key: Key, k: Constraints)
    ensures Tied(xs + ys, key, k) == Tied(xs, key, k) + Tied(ys, key, k)
  {
    if xs == [] {
      assert [] + ys == ys;
    } else {
      TiedThen(xs[1..], ys, key, k);
      TiedFirst(xs[0], xs[1..] + ys, key, k);
      TiedFirst(xs[0], xs[1..], key, k);
      SplitFirst(xs, ys);
    }
  }

  lemma SplitFirst(xs: seq<Candidate>, ys: seq<Candidate>)
    requires xs != []
    ensures xs == [xs[0]] + xs[1..] && xs + ys == [xs[0]] + (xs[1..] + ys)
  {
  }

  lemma {:induction false} TiedNowhere(cs: seq<Candidate>, key: Key, k: Constraints)
    requires forall c :: c in cs ==> RankingKey(c, k) != key
    ensures Tied(cs, key, k) == []
  {
    if cs != [] {
      TiedNowhere(cs[1..], key, k);
    }
  }

  ghost predicate SameTies(xs: seq<Candidate>, ys: seq<Candidate>, k: Constraints) {
    forall key {:trigger Tied(xs, key, k)} {:trigger Tied(ys, key, k)} :: Tied(xs, key, k) == Tied(ys, key, k)
  }

  ghost predicate RankedEligible(cs: seq<Candidate>, k: Constraints) {
    IsRanked(cs, k) && forall c :: c in cs ==> Violation(c, k).None?
  }

  /** The head of a ranked list has the least key, and is the first with that key. */
  lemma TiedHead(xs: seq<Candidate>, ys: seq<Candidate>, k: Constraints)
    requires RankedEligible(xs, k) && RankedEligible(ys, k) && SameTies(xs, ys, k) && xs != []
    ensures ys != [] && KeyLe(RankingKey(ys[0], k), RankingKey(xs[0], k))
    ensures RankingKey(ys[0], k) == RankingKey(xs[0], k) ==> ys[0] == xs[0]
  {
    var key := RankingKey(xs[0], k);
    assert xs[0] in xs && Tied(xs, key, k)[0] == xs[0];
    TiedMembers(ys, key, k, xs[0]);
    FirstIsLeast(ys, xs[0], k);
    assert ys[0] in ys;
  }

  /** A ranked list is determined by what it holds under each key. */
  lemma {:induction false} TiesDecide(xs: seq<Candidate>, ys: seq<Candidate>, k: Constraints)
    requires RankedEligible(xs, k) && RankedEligible(ys, k) && SameTies(xs, ys, k)
    ensures xs == ys
  {
    if xs != [] {
      TiedHead(xs, ys, k);
      TiedHead(ys, xs, k);
      KeyAntisymmetric(RankingKey(xs[0], k), RankingKey(ys[0], k));
      forall key
        ensures Tied(xs[1..], key, k) == Tied(ys[1..], key, k)
      {
        TailTied(xs, ys, key, k);
      }
      TiesDecide(xs[1..], ys[1..], k);
      assert xs == [xs[0]] + xs[1..] && ys == [ys[0]] + ys[1..];
    } else if ys != [] {
      TiedHead(ys, xs, k);
    }
  }

  lemma TailTied(xs: seq<Candidate>, ys: seq<Candidate>, key: Key, k: Constraints)
    requires xs != [] && ys != [] && xs[0] == ys[0] && Tied(xs, key, k) == Tied(ys, key, k)
    ensures Tied(xs[1..], key, k) == Tied(ys[1..], key, k)
  {
    var first := if Violation(xs[0], k).None? && RankingKey(xs[0], k) == key then [xs[0]] else [];
    assert Tied(xs[1..], key, k) == (first + Tied(xs[1..], key, k))[|first|..];
    assert Tied(ys[1..], key, k) == (first + Tied(ys[1..], key, k))[|first|..];
  }

  /** Candidates that come in the same order under each key give the same choice. */
  lemma SameTiesSameChoice(a: seq<Candidate>, b: seq<Candidate>, k: Constraints)
    requires SameTies(a, b, k)
    ensures SameChoice(a, b, k)
  {
    var xs, ys := Ranked(Eligible(a, k), k), Ranked(Eligible(b, k), k);
    forall key
      ensures Tied(xs, key, k) == Tied(ys, key, k)
    {
      RankingIsStable(a, key, k);
      RankingIsStable(b, key, k);
      ChosenIsRanked(a, k);
      ChosenIsRanked(b, k);
    }
    RankedIsEligible(a, k);
    RankedIsEligible(b, k);
    TiesDecide(xs, ys, k);
  }

  lemma RankedIsEligible(cs: seq<Candidate>, k: Constraints)
    ensures RankedEligible(Ranked(Eligible(cs, k), k), k)
  {
    ChosenIsRanked(cs, k);
    ChosenMembers(cs, k);
  }

  /** `d` stands somewhere behind `c`. */
  ghost predicate Precedes(c: Candidate, d: Candidate, cs: seq<Candidate>) {
    exists i, j :: 0 <= i < j < |cs| && cs[i] == c && cs[j] == d
  }

  lemma PrecedesFirst(c: Candidate, d: Candidate, cs: seq<Candidate>)
    requires cs != []
    ensures Precedes(c, d, cs) <==> (cs[0] == c && d in cs[1..]) || Precedes(c, d, cs[1..])
  {
    if Precedes(c, d, cs) {
      var i, j :| 0 <= i < j < |cs| && cs[i] == c && cs[j] == d;
      assert cs[1..][j - 1] == d;
      if i > 0 {
        assert cs[1..][i - 1] == c;
      }
    }
    if cs[0] == c && d in cs[1..] {
      var j :| 0 <= j < |cs| - 1 && cs[1..][j] == d;
      assert cs[j + 1] == d;
    }
    if Precedes(c, d, cs[1..]) {
      var i, j :| 0 <= i < j < |cs| - 1 && cs[1..][i] == c && cs[1..][j] == d;
      assert cs[i + 1] == c && cs[j + 1] == d;
    }
  }

  lemma {:induction false} TiedPrecedes(c: Candidate, d: Candidate, cs: seq<Candidate>, key: Key, k: Constraints)
    requires Violation(c, k).None? && RankingKey(c, k) == key
    requires Violation(d, k).None? && RankingKey(d, k) == key
    ensures Precedes(c, d, Tied(cs, key, k)) <==> Precedes(c, d, cs)
  {
    if cs != [] {
      TiedPrecedes(c, d, cs[1..], key, k);
      PrecedesFirst(c, d, cs);
      var rest := Tied(cs[1..], key, k);
      if Violation(cs[0], k).None? && RankingKey(cs[0], k) == key {
        TiedMembers(cs[1..], key, k, d);
        PrecedesFirst(c, d, [cs[0]] + rest);
        assert ([cs[0]] + rest)[1..] == rest;
      } else {
        assert Tied(cs, key, k) == rest;
      }
    }
  }

  /** Two eligible candidates with one key are chosen in an order exactly when they were given in it. */
  lemma {:induction false} TiesFollowInput(cs: seq<Candidate>, c: Candidate, d: Candidate, k: Constraints)
    requires RankingKey(c, k) == RankingKey(d, k)
    requires Violation(c, k).None? && Violation(d, k).None?
    ensures Precedes(c, d, Chosen(Evaluated(cs, k))) <==> Precedes(c, d, cs)
  {
    var key := RankingKey(c, k);
    RankingIsStable(cs, key, k);
    TiedPrecedes(c, d, cs, key, k);
    TiedPrecedes(c, d, Chosen(Evaluated(cs, k)), key, k);
  }

  /** Swapping two tied candidates therefore changes the choice. */
  lemma SwappedTies(c: Candidate, d: Candidate, rest: seq<Candidate>, k: Constraints)
    requires RankingKey(c, k) == RankingKey(d, k)
    requires c != d && Violation(c, k).None? && Violation(d, k).None?
    ensures !SameChoice([c] + ([d] + rest), [d] + ([c] + rest), k)
  {
    var key := RankingKey(c, k);
    RankingIsStable([c] + ([d] + rest), key, k);
    RankingIsStable([d] + ([c] + rest), key, k);
    TiedFirst(c, [d] + rest, key, k);
    TiedFirst(d, [c] + rest, key, k);
    assert Tied([c] + ([d] + rest), key, k)[0] == c && Tied([d] + ([c] + rest), key, k)[0] == d;
  }

  lemma Remove(cs: seq<Candidate>, c: Candidate) returns (rest: seq<Candidate>)
    requires c in cs
    ensures multiset([c] + rest) == multiset(cs)
    ensures forall d :: d in cs && d != c ==> d in rest
  {
    var i :| 0 <= i < |cs| && cs[i] == c;
    rest := cs[..i] + cs[i + 1..];
    assert cs == cs[..i] + [c] + cs[i + 1..];
  }

  lemma Extract(cs: seq<Candidate>, c: Candidate, d: Candidate) returns (rest: seq<Candidate>)
    requires c in cs && d in cs && c != d
    ensures multiset([c] + ([d] + rest)) == multiset(cs) == multiset([d] + ([c] + rest))
  {
    var without := Remove(cs, c);
    rest := Remove(without, d);
    assert multiset([c] + ([d] + rest)) == multiset{c} + (multiset{d} + multiset(rest));
    assert multiset([d] + ([c] + rest)) == multiset{d} + (multiset{c} + multiset(rest));
  }

  /** Selection and alternatives are the same for every order of the candidates exactly when no two
      different eligible candidates share a ranking key. */
  lemma OrderIndependentExactly(cs: seq<Candidate>, k: Constraints)
    ensures KeysTellApart(cs, k) <==>
      forall a, b :: multiset(a) == multiset(cs) && multiset(b) == multiset(cs) ==> SameChoice(a, b, k)
  {
    if KeysTellApart(cs, k) {
      forall a, b | multiset(a) == multiset(cs) && multiset(b) == multiset(cs)
        ensures SameChoice(a, b, k)
      {
        forall c | c in a
          ensures c in cs
        {
          assert c in multiset(a);
        }
        SameChoiceWhenToldApart(a, b, k);
      }
    } else {
      var c, d :| c in cs && d in cs && Violation(c, k).None? && Violation(d, k).None?
        && RankingKey(c, k) == RankingKey(d, k) && c != d;
      var rest := Extract(cs, c, d);
      SwappedTies(c, d, rest, k);
    }
  }
}
