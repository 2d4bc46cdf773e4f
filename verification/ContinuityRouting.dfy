/** Where a continuity session sends its artifacts and its work, in terms of what the navigator answered. */
module ContinuityRouting {
  import opened Options
  import opened Continuity
  import opened ContinuityTheorems
  import opened ContinuityPipeline
  import opened ContinuitySystem

  predicate Usable(v: Option<string>) {
    v.Some? && v.value != ""
  }

  /** `v` is the first non-empty entry. */
  ghost predicate IsFirstUsable(vs: seq<Option<string>>, v: string) {
    exists i :: 0 <= i < |vs| && vs[i] == Some(v) && v != "" && forall j | 0 <= j < i :: !Usable(vs[j])
  }

  predicate NoneUsable(vs: seq<Option<string>>) {
    forall v | v in vs :: !Usable(v)
  }

  /** The navigator chose this peer for this node: the first usable one of the metadata, or the node itself. */
  ghost predicate IsPeer(nav: NavReply, peer: string)
    requires nav.Chosen?
  {
    IsFirstUsable(nav.peers, peer) || (NoneUsable(nav.peers) && peer == nav.nodeId)
  }

  /** The first usable url of the metadata, or none. */
  ghost predicate IsUrl(nav: NavReply, url: Option<string>)
    requires nav.Chosen?
  {
    (url.Some? && IsFirstUsable(nav.urls, url.value)) || (url.None? && NoneUsable(nav.urls))
  }

  /** The call goes where the navigator said. */
  ghost predicate Goes(nav: NavReply, e: Effect)
    requires nav.Chosen?
  {
    match e
    case TrustRead(device, _) => device == nav.nodeId
    case Transfer(peer, _, _) => IsPeer(nav, peer)
    case Continue(_, _, _, url, _) => IsUrl(nav, url)
  }

  /** The session's target is the one chosen in this answer, and every call it made goes there. */
  ghost predicate Routed(t: Task, nav: NavReply) {
    && nav.Chosen? && t.session.target.Some?
    && t.session.target.value.nodeId == nav.nodeId && t.session.target.value.providerId == nav.providerId
    && forall e :: e in t.effects ==> Goes(nav, e)
  }

  lemma {:induction false} OrChainIsFirst(vs: seq<Option<string>>)
    ensures
      var v := OrChain(vs);
      if Usable(v) then IsFirstUsable(vs, v.value) else NoneUsable(vs)
  {
    if vs != [] {
      assert vs == [vs[0]] + vs[1..];
      if Usable(vs[0]) {
        assert IsFirstUsable(vs, vs[0].value);
      } else if |vs| > 1 {
        OrChainIsFirst(vs[1..]);
        var v := OrChain(vs[1..]);
        if Usable(v) {
          var i :| 0 <= i < |vs| - 1 && vs[1..][i] == v && forall j | 0 <= j < i :: !Usable(vs[1..][j]);
          assert vs[i + 1] == v && forall j | 0 < j < i + 1 :: vs[j] == vs[1..][j - 1];
        }
      }
    }
  }

  /** What the target stores of the answer is enough to route later calls. */
  ghost predicate Kept(t: Task, nav: NavReply) {
    && Routed(t, nav)
    && IsPeer(nav, Peer(t.session.target.value))
    && IsUrl(nav, Url(t.session.target.value))
  }

  lemma SelectKeeps(t: Task, nav: NavReply)
    requires t.effects == [] && t.session.target.None?
    ensures
      var u := SelectStage(t, nav);
      u.Ok? && u.value.session.target.Some? ==> Kept(u.value, nav)
  {
    if nav.Chosen? {
      OrChainIsFirst(nav.peers);
      OrChainIsFirst(nav.urls);
    }
  }

  predicate Selected(t: Task) {
    t.session.state !in {Requested, Validating}
  }

  lemma CallStageKeeps(t: Task, a: Answers, nav: NavReply)
    requires Kept(t, nav) && t.session.state in {Authorized, Transferring, Continuing}
    ensures Kept(Next(t, a), nav)
  {
    var target, r := t.session.target.value, t.session.request;
    match t.session.state
    case Authorized =>
      if AwaitsTrust(t) {
        CallKeeps(t, TrustRead(target.nodeId, a.trust), Next(t, a), nav);
      }
    case Transferring =>
      if Transfers(t) {
        CallKeeps(t, Transfer(Peer(target), r.artifacts[t.sent], a.transfer), Next(t, a), nav);
      }
    case Continuing =>
      if AwaitsAnswer(t) {
        CallKeeps(t, Continue(r.portableWork, r.source, t.session.id, Url(target), a.zarya), Next(t, a), nav);
      }
  }

  /** A later stage keeps the target, and sends its call where the target says. */
  lemma StageKeeps(t: Task, a: Answers, nav: NavReply)
    requires Kept(t, nav) && Selected(t)
    ensures Kept(Next(t, a), nav) && Selected(Next(t, a))
  {
    if t.session.state in {Authorized, Transferring, Continuing} {
      CallStageKeeps(t, a, nav);
    }
  }

  lemma CallKeeps(t: Task, e: Effect, u: Task, nav: NavReply)
    requires Kept(t, nav) && Goes(nav, e) && u.effects == t.effects + [e] && u.session.target.Some?
    requires
      u.session.target.value == t.session.target.value.(trustVerified := u.session.target.value.trustVerified)
    ensures Kept(u, nav)
  {
  }

  /** Before the selection of the target there is none. */
  lemma EarlyStage(t: Task, a: Answers)
    requires Sound(t) && t.session.state in {Requested, Validating}
    ensures t.session.target.None? && t.effects == []
    ensures
      var u := Next(t, a);
      if t.session.state == Validating && u.session.target.Some? then Kept(u, a.nav)
      else u.session.target.None? && u.effects == []
    ensures Next(t, a).session.target.Some? ==> Next(t, a).session.state == TargetSelected
  {
    if t.session.state == Validating {
      SelectKeeps(t, a.nav);
    }
  }

  // ---- Over every run of the system ----

  /** Event `i` is the answer that session `id` got when it asked for a target. */
  ghost predicate Asks(events: seq<Event>, i: nat, id: string) {
    && i < |events| && events[i].Resume? && events[i].id == id
    && var s := After(IDLE, events[..i]);
       id in s.tasks && s.tasks[id].session.state == Validating
  }

  ghost predicate KeptBy(events: seq<Event>, t: Task, id: string, i: nat) {
    Asks(events, i, id) && Kept(t, events[i].answers.nav) && Selected(t)
  }

  ghost predicate KeptInRun(events: seq<Event>, id: string) {
    var s := After(IDLE, events);
    id in s.tasks && s.tasks[id].session.target.Some? ==>
      exists i: nat :: KeptBy(events, s.tasks[id], id, i)
  }

  lemma AsksLater(events: seq<Event>, e: Event, i: nat, id: string)
    requires Asks(events, i, id)
    ensures Asks(events + [e], i, id) && (events + [e])[i] == events[i]
  {
    assert (events + [e])[..i] == events[..i];
  }

  lemma KeptLater(events: seq<Event>, e: Event, id: string)
    requires KeptInRun(events, id)
    ensures KeptInRun(events + [e], id)
  {
    AlwaysConsistent(events);
    AfterThen(IDLE, events, e);
    var s := After(IDLE, events);
    if id in s.tasks {
      StepOnTask(s, e, id);
      var t := s.tasks[id];
      if e.Resume? && e.id == id {
        if t.session.target.Some? {
          var i: nat :| KeptBy(events, t, id, i);
          StageKeeps(t, e.answers, events[i].answers.nav);
          AsksLater(events, e, i, id);
          assert KeptBy(events + [e], Next(t, e.answers), id, i);
        } else if t.session.state in {Requested, Validating} {
          EarlyStage(t, e.answers);
          SelectedNow(events, e, id);
        } else {
          NoTargetStays(t, e.answers);
        }
      } else if t.session.target.Some? {
        var i: nat :| KeptBy(events, t, id, i);
        AsksLater(events, e, i, id);
        assert KeptBy(events + [e], t, id, i);
      }
    }
  }

  lemma SelectedNow(events: seq<Event>, e: Event, id: string)
    requires e.Resume? && e.id == id && id in After(IDLE, events).tasks
    requires
      var t := After(IDLE, events).tasks[id];
      && t.session.state in {Requested, Validating}
      && (Next(t, e.answers).session.target.Some? ==>
            && t.session.state == Validating && Kept(Next(t, e.answers), e.answers.nav)
            && Next(t, e.answers).session.state == TargetSelected)
    ensures
      var u := Next(After(IDLE, events).tasks[id], e.answers);
      u.session.target.Some? ==> KeptBy(events + [e], u, id, |events|)
  {
    assert (events + [e])[..|events|] == events;
  }

  lemma NoTargetStays(t: Task, a: Answers)
    requires t.session.target.None? && Selected(t)
    ensures Next(t, a).session.target.None?
  {
  }

  lemma {:induction false} AlwaysKept(events: seq<Event>, id: string)
    ensures KeptInRun(events, id)
  {
    if events != [] {
      var before, last := events[..|events| - 1], events[|events| - 1];
      assert events == before + [last];
      AlwaysKept(before, id);
      KeptLater(before, last, id);
    }
  }

  /** In every run a session with a target had asked the navigator and was answered with it; every trust read, transfer
      and continuation it made goes where that answer says. A session without a target made no call. */
  lemma {:induction false} RoutedInEveryRun(events: seq<Event>, id: string)
    ensures
      var s := After(IDLE, events);
      id in s.tasks ==>
        if s.tasks[id].session.target.Some?
        then exists i: nat :: Asks(events, i, id) && Routed(s.tasks[id], events[i].answers.nav)
        else Own(s.trace, id) == []
    ensures
      var s := After(IDLE, events);
      id in s.tasks ==> Own(s.trace, id) == s.tasks[id].effects
  {
    AlwaysConsistent(events);
    AlwaysKept(events, id);
    var s := After(IDLE, events);
    if id in s.tasks && s.tasks[id].session.target.Some? {
      var i: nat :| KeptBy(events, s.tasks[id], id, i);
      assert Asks(events, i, id) && Routed(s.tasks[id], events[i].answers.nav);
    }
  }

  // ---- What is recorded of the answers ----

  /** The answer recorded with the call is the collaborator's. */
  predicate Records(e: Effect, a: Answers) {
    match e
    case TrustRead(_, reply) => reply == a.trust
    case Transfer(_, _, reply) => reply == a.transfer
    case Continue(_, _, _, _, reply) => reply == a.zarya
  }

  /** A stage makes at most one call, and records its answer. */
  lemma StageRecords(t: Task, a: Answers)
    ensures
      var u := Next(t, a);
      u.effects == t.effects
      || (|u.effects| == |t.effects| + 1 && t.effects <= u.effects && Records(u.effects[|t.effects|], a))
  {
  }

  /** Event `i` answers call `k` of session `id`. */
  ghost predicate AnswersCall(events: seq<Event>, i: nat, id: string, k: nat, e: Effect) {
    && i < |events| && events[i].Resume? && events[i].id == id && Records(e, events[i].answers)
    && var s := After(IDLE, events[..i]);
       id in s.tasks && |s.tasks[id].effects| == k
  }

  lemma AnswersLater(events: seq<Event>, e: Event, i: nat, id: string, k: nat, call: Effect)
    requires AnswersCall(events, i, id, k, call)
    ensures AnswersCall(events + [e], i, id, k, call)
  {
    assert (events + [e])[..i] == events[..i];
  }

  ghost predicate Recorded(events: seq<Event>, id: string, t: Task, k: nat) {
    k < |t.effects| ==> exists i: nat :: AnswersCall(events, i, id, k, t.effects[k])
  }

  lemma RecordedStays(events: seq<Event>, e: Event, id: string, t: Task, u: Task, k: nat)
    requires Recorded(events, id, t, k) && t.effects <= u.effects && k < |t.effects|
    ensures Recorded(events + [e], id, u, k)
  {
    var i: nat :| AnswersCall(events, i, id, k, t.effects[k]);
    AnswersLater(events, e, i, id, k, t.effects[k]);
    assert u.effects[k] == t.effects[k];
  }

  lemma RecordedNow(events: seq<Event>, id: string, a: Answers, k: nat)
    requires id in After(IDLE, events).tasks && k >= |After(IDLE, events).tasks[id].effects|
    ensures Recorded(events + [Resume(id, a)], id, Next(After(IDLE, events).tasks[id], a), k)
  {
    var t := After(IDLE, events).tasks[id];
    var u := Next(t, a);
    StageRecords(t, a);
    if k < |u.effects| {
      assert (events + [Resume(id, a)])[..|events|] == events;
      assert AnswersCall(events + [Resume(id, a)], |events|, id, k, u.effects[k]);
    }
  }

  lemma RecordedLater(events: seq<Event>, e: Event, id: string, k: nat)
    requires id in After(IDLE, events).tasks && Recorded(events, id, After(IDLE, events).tasks[id], k)
    requires TasksSound(After(IDLE, events))
    ensures id in After(IDLE, events + [e]).tasks
    ensures Recorded(events + [e], id, After(IDLE, events + [e]).tasks[id], k)
  {
    AfterThen(IDLE, events, e);
    var t := After(IDLE, events).tasks[id];
    StepOnTask(After(IDLE, events), e, id);
    if e.Resume? && e.id == id {
      StageRecords(t, e.answers);
      if k < |t.effects| {
        RecordedStays(events, e, id, t, Next(t, e.answers), k);
      } else {
        RecordedNow(events, id, e.answers, k);
      }
    } else if k < |t.effects| {
      RecordedStays(events, e, id, t, t, k);
    }
  }

  lemma NewSessionIsIdle(events: seq<Event>, e: Event, id: string)
    requires id !in After(IDLE, events).tasks && id in After(IDLE, events + [e]).tasks
    ensures After(IDLE, events + [e]).tasks[id].effects == []
  {
    AfterThen(IDLE, events, e);
  }

  /** In every run, call k of a session is recorded with what it was answered when k calls had been made before. */
  lemma {:induction false} AnswersAreRecorded(events: seq<Event>, id: string, k: nat)
    ensures id in After(IDLE, events).tasks ==> Recorded(events, id, After(IDLE, events).tasks[id], k)
  {
    if events != [] {
      var before, last := events[..|events| - 1], events[|events| - 1];
      assert events == before + [last];
      AnswersAreRecorded(before, id, k);
      AlwaysConsistent(before);
      if id in After(IDLE, before).tasks {
        RecordedLater(before, last, id, k);
      } else if id in After(IDLE, events).tasks {
        NewSessionIsIdle(before, last, id);
      }
    }
  }

  // ---- One request, uninterrupted ----

  /** The answer recorded with call `k` is what these collaborators answer to it. */
  predicate RecordsAt(e: Effect, k: nat, cs: Collaborators) {
    match e
    case TrustRead(device, reply) => reply == cs.trust(device)
    case Transfer(_, _, reply) => 0 < k && reply == cs.transfer(k - 1)
    case Continue(_, _, _, _, reply) => reply == cs.zarya
  }

  ghost predicate AllRecorded(es: seq<Effect>, cs: Collaborators) {
    forall k | 0 <= k < |es| :: RecordsAt(es[k], k, cs)
  }

  lemma StageRecordsAt(t: Task, cs: Collaborators)
    requires Sound(t) && AllRecorded(t.effects, cs)
    ensures AllRecorded(Next(t, AnswersFor(t, cs)).effects, cs)
  {
    var a := AnswersFor(t, cs);
    var u := Next(t, a);
    StageRecords(t, a);
    StageProceeds(t, a);
    if u.effects != t.effects {
      var k := |t.effects|;
      assert InPlace(k, u.effects[k], u.session.id, u.session.request, u.session.target.value);
    }
  }

  lemma {:induction false} AloneKept(t: Task, answers: seq<Answers>, cs: Collaborators)
    requires Sound(t) && t.session.state == Requested && AnsweredBy(t, answers, cs)
    ensures
      var u := Alone(t, answers);
      Sound(u) && AllRecorded(u.effects, cs)
      && if u.session.target.Some? then Kept(u, cs.nav) && Selected(u) else u.effects == []
  {
    AloneEnds(t, answers);
    if answers != [] {
      var before, a := answers[..|answers| - 1], answers[|answers| - 1];
      AloneKept(t, before, cs);
      var u := Alone(t, before);
      StageRecordsAt(u, cs);
      if u.session.target.Some? {
        StageKeeps(u, a, cs.nav);
      } else if !Selected(u) {
        EarlyStage(u, a);
      } else {
        NoTargetStays(u, a);
      }
    }
  }

  /** Where the request's session sent everything, and what it was answered. */
  ghost predicate Conducted(t: Task, cs: Collaborators) {
    && AllRecorded(t.effects, cs)
    && if t.session.target.Some? then Routed(t, cs.nav) else t.effects == []
  }

  /** The uninterrupted pipeline sends everything where the navigator's answer to this request says, and records what
      the collaborators answered. */
  lemma {:induction false} PipelineRouted(id: string, r: Request, cs: Collaborators)
    ensures
      var o := Pipeline(NewTask(id, r), cs);
      o.Ok? && Conducted(o.value, cs)
  {
    PipelineIsStages(id, r, cs);
    var t := NewTask(id, r);
    var answers :| Alone(t, answers) == Pipeline(t, cs).value && AnsweredBy(t, answers, cs);
    AloneKept(t, answers, cs);
  }
}
