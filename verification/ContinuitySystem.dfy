/** Concurrent continuity requests: their stages interleave at will. */
module ContinuitySystem {
  import opened Continuity
  import opened ContinuityTheorems
  import Trust

  /** The coordinator with the sessions it keeps, the index from work to session, and the calls made so far. */
  datatype System = System(tasks: map<string, Task>, index: map<string, string>, trace: seq<Made>)

  datatype Made = Made(id: string, effect: Effect)

  /** Ask is a new request, which draws the session id `id`; Resume runs one stage of a session. */
  datatype Event = Ask(id: string, request: Request) | Resume(id: string, answers: Answers)

  const IDLE := System(map[], map[], [])

  predicate Live(s: System, id: string) {
    id in s.tasks && !Terminal(s.tasks[id].session.state)
  }

  /** DuplicateContinuityError. */
  predicate Refuses(s: System, r: Request) {
    r.workId in s.index && Live(s, s.index[r.workId])
  }

  function Tagged(id: string, es: seq<Effect>): seq<Made> {
    seq(|es|, i requires 0 <= i < |es| => Made(id, es[i]))
  }

  /** One stage; an illegal transition, which never happens, would leave the session where it is. */
  function Next(t: Task, a: Answers): Task {
    var r := Advanced(t, a);
    if r.Ok? then r.value else t
  }

  /** The calls of `u` that `t` has not made. */
  function NewCalls(t: Task, u: Task): seq<Effect> {
    if |t.effects| <= |u.effects| then u.effects[|t.effects|..] else []
  }

  /** Session ids are fresh: an Ask with an id in use does not happen. */
  function Step(s: System, e: Event): System {
    match e
    case Ask(id, r) =>
      if id in s.tasks || Refuses(s, r) then s
      else s.(tasks := s.tasks[id := NewTask(id, r)], index := s.index[r.workId := id])
    case Resume(id, a) =>
      if !Live(s, id) then s
      else
        var t := Next(s.tasks[id], a);
        s.(tasks := s.tasks[id := t], trace := s.trace + Tagged(id, NewCalls(s.tasks[id], t)))
  }

  function After(s: System, events: seq<Event>): System {
    if events == [] then s else Step(After(s, events[..|events| - 1]), events[|events| - 1])
  }

  ghost predicate TasksSound(s: System) {
    forall id | id in s.tasks :: Sound(s.tasks[id]) && s.tasks[id].session.id == id
  }

  /** Every live session is the one its work is indexed to, and the index is about known sessions. */
  ghost predicate Indexed(s: System) {
    && (forall id | id in s.tasks ::
          var work := s.tasks[id].session.request.workId;
          work in s.index && (Live(s, id) ==> s.index[work] == id))
    && (forall work | work in s.index ::
          s.index[work] in s.tasks && s.tasks[s.index[work]].session.request.workId == work)
  }

  /** The calls of session `id` in the trace, in order. */
  function Own(trace: seq<Made>, id: string): seq<Effect> {
    if trace == [] then []
    else
      var last := trace[|trace| - 1];
      Own(trace[..|trace| - 1], id) + (if last.id == id then [last.effect] else [])
  }

  ghost predicate Traced(s: System) {
    forall id :: Own(s.trace, id) == if id in s.tasks then s.tasks[id].effects else []
  }

  ghost predicate Consistent(s: System) {
    TasksSound(s) && Indexed(s) && Traced(s)
  }

  lemma {:induction false} OwnThen(trace: seq<Made>, more: seq<Made>, id: string)
    ensures Own(trace + more, id) == Own(trace, id) + Own(more, id)
    decreases |more|
  {
    if more == [] {
      assert trace + more == trace;
    } else {
      var before := more[..|more| - 1];
      OwnThen(trace, before, id);
      assert (trace + more)[..|trace + more| - 1] == trace + before;
    }
  }

  lemma {:induction false} OwnTagged(maker: string, es: seq<Effect>, id: string)
    ensures Own(Tagged(maker, es), id) == if maker == id then es else []
  {
    if es != [] {
      var before := es[..|es| - 1];
      OwnTagged(maker, before, id);
      assert Tagged(maker, es)[..|es| - 1] == Tagged(maker, before);
    }
  }

  lemma OwnMore(trace: seq<Made>, id: string, made: seq<Effect>, other: string)
    ensures Own(trace + Tagged(id, made), other) == if other == id then Own(trace, id) + made else Own(trace, other)
  {
    OwnThen(trace, Tagged(id, made), other);
    OwnTagged(id, made, other);
    assert Own(trace, other) + [] == Own(trace, other);
  }

  /** Session `id` becomes `t`. */
  function Replaced(s: System, id: string, t: Task): System {
    s.(tasks := s.tasks[id := t])
  }

  lemma ReplacedIndexed(s: System, id: string, t: Task)
    requires Indexed(s) && Live(s, id) && t.session.request == s.tasks[id].session.request
    ensures Indexed(Replaced(s, id, t))
  {
  }

  lemma ReplacedTraced(s: System, id: string, t: Task)
    requires Traced(s) && Live(s, id) && s.tasks[id].effects <= t.effects
    ensures Traced(Replaced(s, id, t).(trace := s.trace + Tagged(id, NewCalls(s.tasks[id], t))))
  {
    var made := NewCalls(s.tasks[id], t);
    assert s.tasks[id].effects + made == t.effects;
    forall other
      ensures Own(s.trace + Tagged(id, made), other) == if other == id then t.effects else Own(s.trace, other)
    {
      OwnMore(s.trace, id, made, other);
    }
  }

  lemma AskKeepsTraced(s: System, id: string, r: Request)
    requires Traced(s)
    ensures Traced(Step(s, Ask(id, r)))
  {
  }

  lemma AskKeepsIndexed(s: System, id: string, r: Request)
    requires Indexed(s)
    ensures Indexed(Step(s, Ask(id, r)))
  {
  }

  /** A live session resumes without an illegal transition, and nothing else changes. */
  lemma ResumeProceeds(s: System, id: string, a: Answers)
    requires TasksSound(s) && Live(s, id)
    ensures
      var t := s.tasks[id];
      var u := Next(t, a);
      && Proceeds(t, Ok(u))
      && Step(s, Resume(id, a)) == Replaced(s, id, u).(trace := s.trace + Tagged(id, NewCalls(t, u)))
  {
    StageProceeds(s.tasks[id], a);
  }

  lemma AskKeepsSound(s: System, id: string, r: Request)
    requires TasksSound(s)
    ensures TasksSound(Step(s, Ask(id, r)))
  {
    assert Sound(NewTask(id, r));
  }

  lemma ReplacedSound(s: System, id: string, t: Task)
    requires TasksSound(s) && Sound(t) && t.session.id == id
    ensures TasksSound(Replaced(s, id, t))
  {
  }

  lemma ReplacedConsistent(s: System, id: string, t: Task)
    requires Consistent(s) && Live(s, id) && Sound(t)
    requires t.session.id == id && t.session.request == s.tasks[id].session.request && s.tasks[id].effects <= t.effects
    ensures Consistent(Replaced(s, id, t).(trace := s.trace + Tagged(id, NewCalls(s.tasks[id], t))))
  {
    ReplacedSound(s, id, t);
    ReplacedIndexed(s, id, t);
    ReplacedTraced(s, id, t);
  }

  lemma {:induction false} StepKeepsConsistent(s: System, e: Event)
    requires Consistent(s)
    ensures Consistent(Step(s, e))
  {
    match e
    case Ask(id, r) =>
      AskKeepsSound(s, id, r);
      AskKeepsTraced(s, id, r);
      AskKeepsIndexed(s, id, r);
    case Resume(id, a) =>
      if Live(s, id) {
        ResumeProceeds(s, id, a);
        ReplacedConsistent(s, id, Next(s.tasks[id], a));
      }
  }

  lemma {:induction false} AfterConsistent(s: System, events: seq<Event>)
    requires Consistent(s)
    ensures Consistent(After(s, events))
  {
    if events != [] {
      AfterConsistent(s, events[..|events| - 1]);
      StepKeepsConsistent(After(s, events[..|events| - 1]), events[|events| - 1]);
    }
  }

  /** In every run every session is sound, and its calls are its part of the trace. */
  lemma {:induction false} AlwaysConsistent(events: seq<Event>)
    ensures Consistent(After(IDLE, events))
  {
    AfterConsistent(IDLE, events);
  }

  /** In every run, also while its read is in flight, a session stored as AUTHORIZED is verified exactly when its trust
      record has been read, and then the trace says that the record was TRUSTED. */
  lemma {:induction false} AuthorizedInEveryRun(events: seq<Event>, id: string)
    ensures
      var s := After(IDLE, events);
      id in s.tasks && s.tasks[id].session.state == Authorized ==>
        var target := s.tasks[id].session.target;
        && target.Some?
        && (target.value.trustVerified <==> Own(s.trace, id) != [])
        && (target.value.trustVerified <==> Own(s.trace, id) == [TrustRead(target.value.nodeId, Record(Trust.Trusted))])
  {
    AlwaysConsistent(events);
    var s := After(IDLE, events);
    if id in s.tasks && s.tasks[id].session.state == Authorized {
      AuthorizedExactly(s.tasks[id]);
    }
  }

  lemma AfterThen(s: System, events: seq<Event>, e: Event)
    ensures After(s, events + [e]) == Step(After(s, events), e)
  {
    assert (events + [e])[..|events|] == events;
  }

  /** Three stages take a new session to AUTHORIZED without a call. */
  lemma FirstStages(t: Task, a: Answers)
    requires t == NewTask(t.session.id, t.session.request) && Portable(t.session.request) && a.nav.Chosen?
    ensures
      var t1 := Next(t, a);
      var t2 := Next(t1, a);
      var t3 := Next(t2, a);
      && t1.session.state == Validating && t2.session.state == TargetSelected && t3.session.state == Authorized
      && t1.effects == t2.effects == t3.effects == []
      && t3.session.target.Some? && !t3.session.target.value.trustVerified
  {
  }

  function Single(id: string, r: Request, t: Task): System {
    System(map[id := t], map[r.workId := id], [])
  }

  lemma FirstAsk(id: string, r: Request)
    ensures After(IDLE, [Ask(id, r)]) == Single(id, r, NewTask(id, r))
  {
    AfterThen(IDLE, [], Ask(id, r));
    assert [] + [Ask(id, r)] == [Ask(id, r)];
    assert IDLE.tasks[id := NewTask(id, r)] == map[id := NewTask(id, r)];
    assert IDLE.index[r.workId := id] == map[r.workId := id];
  }

  lemma QuietResume(events: seq<Event>, more: seq<Event>, id: string, r: Request, t: Task, a: Answers)
    requires After(IDLE, events) == Single(id, r, t) && more == events + [Resume(id, a)]
    requires !Terminal(t.session.state) && t.effects == Next(t, a).effects
    ensures After(IDLE, more) == Single(id, r, Next(t, a))
  {
    AfterThen(IDLE, events, Resume(id, a));
    assert map[id := t][id := Next(t, a)] == map[id := Next(t, a)];
    assert Tagged(id, []) == [];
  }

  /** The side on which it is not verified is reached: asked for, validated and with a target selected, a session is
      stored as AUTHORIZED before anything was read. */
  lemma {:induction false} AuthorizedBeforeTrust(id: string, r: Request, a: Answers)
    requires Portable(r) && a.nav.Chosen?
    ensures
      var s := After(IDLE, [Ask(id, r), Resume(id, a), Resume(id, a), Resume(id, a)]);
      && id in s.tasks && s.tasks[id].session.state == Authorized && s.trace == []
      && s.tasks[id].session.target.Some? && !s.tasks[id].session.target.value.trustVerified
  {
    var resume, t := Resume(id, a), NewTask(id, r);
    FirstAsk(id, r);
    FirstStages(t, a);
    var one, two, three := [Ask(id, r)], [Ask(id, r), resume], [Ask(id, r), resume, resume];
    QuietResume(one, two, id, r, t, a);
    QuietResume(two, three, id, r, Next(t, a), a);
    QuietResume(three, [Ask(id, r), resume, resume, resume], id, r, Next(Next(t, a), a), a);
  }

  /** At most one session of a work id is live, and it is the indexed one; every other one is over. */
  lemma {:induction false} AtMostOneLive(events: seq<Event>, id: string)
    ensures
      var s := After(IDLE, events);
      id in s.tasks ==>
        var work := s.tasks[id].session.request.workId;
        && work in s.index
        && (s.index[work] != id ==> Terminal(s.tasks[id].session.state))
        && forall other | Live(s, id) && Live(s, other) && s.tasks[other].session.request.workId == work :: other == id
  {
    AlwaysConsistent(events);
  }

  /** A request is refused exactly while a session of its work is live; otherwise it gets a session of its own. */
  lemma {:induction false} RefusedExactly(events: seq<Event>, id: string, r: Request)
    ensures
      var s := After(IDLE, events);
      id !in s.tasks ==>
        var next := After(IDLE, events + [Ask(id, r)]);
        var busy := exists other :: Live(s, other) && s.tasks[other].session.request.workId == r.workId;
        && (busy ==> next == s)
        && (!busy ==> Live(next, id) && next.index[r.workId] == id && next.tasks[id] == NewTask(id, r))
  {
    AlwaysConsistent(events);
    var s := After(IDLE, events);
    assert (events + [Ask(id, r)])[..|events|] == events;
    if Refuses(s, r) {
      assert Live(s, s.index[r.workId]);
    }
  }

  /** The answers that session `id` is resumed with. */
  function AnswersTo(events: seq<Event>, id: string): seq<Answers> {
    if events == [] then []
    else
      var last := events[|events| - 1];
      AnswersTo(events[..|events| - 1], id) + (if last.Resume? && last.id == id then [last.answers] else [])
  }

  /** The pipeline run alone, one stage an answer. */
  function Alone(t: Task, answers: seq<Answers>): Task {
    if answers == [] then t else Next(Alone(t, answers[..|answers| - 1]), answers[|answers| - 1])
  }

  lemma StepOnTask(s: System, e: Event, id: string)
    requires TasksSound(s) && id in s.tasks
    ensures id in Step(s, e).tasks
    ensures Step(s, e).tasks[id] == if e.Resume? && e.id == id then Next(s.tasks[id], e.answers) else s.tasks[id]
  {
    if e.Resume? {
      if Live(s, e.id) {
        ResumeProceeds(s, e.id, e.answers);
      } else if e.id == id {
        StageProceeds(s.tasks[id], e.answers);
      }
    }
  }

  lemma {:induction false} AfterIsAlone(s: System, events: seq<Event>, id: string)
    requires Consistent(s) && id in s.tasks
    ensures id in After(s, events).tasks
    ensures After(s, events).tasks[id] == Alone(s.tasks[id], AnswersTo(events, id))
  {
    if events != [] {
      var before, e := events[..|events| - 1], events[|events| - 1];
      AfterIsAlone(s, before, id);
      AfterConsistent(s, before);
      StepOnTask(After(s, before), e, id);
      var answers := AnswersTo(before, id);
      if e.Resume? && e.id == id {
        assert AnswersTo(events, id)[..|answers|] == answers;
      } else {
        assert AnswersTo(events, id) == answers;
      }
    }
  }

  /** In every run, whatever else goes on, a session does what it would do alone with the same answers. */
  lemma {:induction false} InterleavingIsHarmless(before: seq<Event>, after: seq<Event>, id: string)
    requires id in After(IDLE, before).tasks
    ensures
      var s := After(After(IDLE, before), after);
      id in s.tasks && s.tasks[id] == Alone(After(IDLE, before).tasks[id], AnswersTo(after, id))
  {
    AlwaysConsistent(before);
    AfterIsAlone(After(IDLE, before), after, id);
  }

  /** Alone, a session stays sound, and is over after as many stages as it has left at most. */
  lemma {:induction false} AloneEnds(t: Task, answers: seq<Answers>)
    requires Sound(t)
    ensures
      var u := Alone(t, answers);
      && Sound(u) && u.session.id == t.session.id && u.session.request == t.session.request
      && (Terminal(u.session.state) || Rank(u) + |answers| <= Rank(t))
      && (Terminal(t.session.state) ==> u == t)
  {
    if answers != [] {
      var before := answers[..|answers| - 1];
      AloneEnds(t, before);
      StageProceeds(Alone(t, before), answers[|answers| - 1]);
    }
  }

  /** Nine stages more than there are artifacts are enough. */
  lemma {:induction false} AloneIsOver(t: Task, answers: seq<Answers>)
    requires Sound(t) && |answers| >= |t.session.request.artifacts| + 9
    ensures Terminal(Alone(t, answers).session.state)
  {
    AloneEnds(t, answers);
    RankIsPositive(t);
    RankIsPositive(Alone(t, answers));
  }

  lemma RankIsPositive(t: Task)
    requires Sound(t)
    ensures Rank(t) <= |t.session.request.artifacts| + 9
    ensures !Terminal(t.session.state) ==> Rank(t) > 0
  {
  }

  /** In every run, a session that is over stays as it is, and one that has been resumed nine times more than it has
      artifacts is over: whatever the collaborators answer, the pipeline ends. */
  lemma {:induction false} SessionsEnd(before: seq<Event>, after: seq<Event>, id: string)
    requires id in After(IDLE, before).tasks
    ensures
      var t := After(IDLE, before).tasks[id];
      var s := After(After(IDLE, before), after);
      && id in s.tasks
      && (Terminal(t.session.state) ==> s.tasks[id] == t)
      && (|AnswersTo(after, id)| >= |t.session.request.artifacts| + 9 ==> Terminal(s.tasks[id].session.state))
  {
    AlwaysConsistent(before);
    var t, answers := After(IDLE, before).tasks[id], AnswersTo(after, id);
    InterleavingIsHarmless(before, after, id);
    AloneEnds(t, answers);
    if |answers| >= |t.session.request.artifacts| + 9 {
      AloneIsOver(t, answers);
    }
  }
}
