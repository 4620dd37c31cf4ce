/** The engine object: the analysis run in loops, and the result it remembers for each
    incident. */
module RootCauseEngine {
  import opened Lists
  import opened Options
  import opened RootCause
  import opened RootCauseRanking

  /** What a result is remembered under: the joined analysis version, sorted event ids and
      recovery flag.  Neither the analysis itself nor the incident's start is part of it. */
  datatype Key = Key(analysisVersion: int, ids: multiset<string>, recovery: bool)

  function Ids(es: seq<OperationalEvent>): multiset<string> {
    if es == [] then multiset{} else Ids(Front(es)) + multiset{Last(es).id}
  }

  function KeyOf(x: Input): Key { Key(x.incident.analysis.version, Ids(x.events), x.recovery) }

  /** How many of the events have the id. */
  function Times(es: seq<OperationalEvent>, id: string): nat {
    if es == [] then 0 else Times(Front(es), id) + if Last(es).id == id then 1 else 0
  }

  lemma {:induction false} IdsCount(es: seq<OperationalEvent>, id: string)
    ensures Ids(es)[id] == Times(es, id)
  {
    if es != [] {
      IdsCount(Front(es), id);
    }
  }

  /** The events have the same ids equally often. */
  ghost predicate SameIds(xs: seq<OperationalEvent>, ys: seq<OperationalEvent>) {
    forall id :: Times(xs, id) == Times(ys, id)
  }

  lemma SameIdsIff(xs: seq<OperationalEvent>, ys: seq<OperationalEvent>)
    ensures Ids(xs) == Ids(ys) <==> SameIds(xs, ys)
  {
    forall id: string ensures Ids(xs)[id] == Ids(ys)[id] <==> Times(xs, id) == Times(ys, id) {
      IdsCount(xs, id);
      IdsCount(ys, id);
    }
    if SameIds(xs, ys) {
      forall id: string ensures Ids(xs)[id] == Ids(ys)[id] {
        assert Times(xs, id) == Times(ys, id);
      }
      assert Ids(xs) == Ids(ys);
    } else {
      var id :| Times(xs, id) != Times(ys, id);
      assert Ids(xs)[id] != Ids(ys)[id];
    }
  }

  /** Two inputs go by one key exactly when the analysis version, the recovery and the event
      ids are the same, in whatever order. */
  lemma SameKeyIff(x: Input, y: Input)
    ensures KeyOf(x) == KeyOf(y) <==>
      && x.incident.analysis.version == y.incident.analysis.version && x.recovery == y.recovery
      && SameIds(x.events, y.events)
  {
    SameIdsIff(x.events, y.events);
  }

  datatype Memo = Memo(latest: map<string, Result>, keys: map<string, Key>)

  predicate Known(m: Memo, incident: string, key: Key) {
    incident in m.keys && incident in m.latest && m.keys[incident] == key
  }

  function NextVersion(m: Memo, incident: string): nat {
    if incident in m.latest then m.latest[incident].version + 1 else 1
  }

  function Record(m: Memo, incident: string, key: Key, result: Result): Memo {
    Memo(m.latest[incident := result], m.keys[incident := key])
  }

  /** A known key is answered from memory; any other starts a new version. */
  function Answer(r: Rules, m: Memo, incident: string, x: Input): (Memo, Result) {
    if Known(m, incident, KeyOf(x)) then (m, m.latest[incident])
    else
      var result := Conclude(r, x, NextVersion(m, incident));
      (Record(m, incident, KeyOf(x), result), result)
  }

  // ---- what is remembered -----------------------------------------------------

  datatype Call = Call(incident: string, x: Input)

  function After(r: Rules, calls: seq<Call>): Memo {
    if calls == [] then Memo(map[], map[]) else Answer(r, After(r, Front(calls)), Last(calls).incident, Last(calls).x).0
  }

  /** The input the current result for the incident was computed from: that of the first
      call since its key last changed. */
  function Source(calls: seq<Call>, incident: string): Option<Input> {
    if calls == [] then None
    else
      var was := Source(Front(calls), incident);
      if Last(calls).incident != incident || (was.Some? && KeyOf(was.value) == KeyOf(Last(calls).x)) then was
      else Some(Last(calls).x)
  }

  /** How often the key of the incident has changed. */
  function Changes(calls: seq<Call>, incident: string): nat {
    if calls == [] then 0
    else
      var was := Source(Front(calls), incident);
      Changes(Front(calls), incident)
      + if Last(calls).incident != incident || (was.Some? && KeyOf(was.value) == KeyOf(Last(calls).x)) then 0 else 1
  }

  lemma AnswerAt(r: Rules, m: Memo, asked: string, x: Input, incident: string)
    ensures var after, known := Answer(r, m, asked, x).0, Known(m, asked, KeyOf(x));
      && (asked != incident || known ==>
            && (incident in after.latest <==> incident in m.latest)
            && (incident in m.latest ==> after.latest[incident] == m.latest[incident])
            && (incident in after.keys <==> incident in m.keys)
            && (incident in m.keys ==> after.keys[incident] == m.keys[incident]))
      && (asked == incident && !known ==>
            && incident in after.latest && after.latest[incident] == Conclude(r, x, NextVersion(m, incident))
            && incident in after.keys && after.keys[incident] == KeyOf(x))
  {
  }

  /** The memory holds the conclusion from the source, numbered by the changes. */
  ghost predicate Remembers(r: Rules, m: Memo, incident: string, source: Option<Input>, changes: nat) {
    && (incident in m.latest <==> source.Some?) && (incident in m.keys <==> source.Some?)
    && (source.Some? ==>
          && m.latest[incident] == Conclude(r, source.value, changes) && m.latest[incident].version == changes
          && m.keys[incident] == KeyOf(source.value))
    && (source.None? ==> changes == 0)
  }

  lemma RemembersStep(r: Rules, m: Memo, asked: string, x: Input, incident: string, source: Option<Input>, changes: nat)
    requires Remembers(r, m, incident, source, changes)
    ensures var same := asked != incident || (source.Some? && KeyOf(source.value) == KeyOf(x));
      Remembers(r, Answer(r, m, asked, x).0, incident, if same then source else Some(x),
                if same then changes else changes + 1)
  {
    AnswerAt(r, m, asked, x, incident);
  }

  /** The engine remembers, for each incident asked about, the conclusion from the source,
      numbered by the changes of the key. */
  lemma {:induction false} RemembersSource(r: Rules, calls: seq<Call>, incident: string)
    ensures Remembers(r, After(r, calls), incident, Source(calls, incident), Changes(calls, incident))
  {
    if calls != [] {
      var front := Front(calls);
      RemembersSource(r, front, incident);
      RemembersStep(r, After(r, front), Last(calls).incident, Last(calls).x, incident, Source(front, incident),
                    Changes(front, incident));
    }
  }

  /** So an answer is as good as computed afresh when nothing but the remembered key
      mattered, that is, when the source was the same incident, analysis and events. */
  lemma AnswerIsConclusion(r: Rules, calls: seq<Call>, incident: string, x: Input)
    ensures var asked := calls + [Call(incident, x)];
      Answer(r, After(r, calls), incident, x).1 == Conclude(r, Source(asked, incident).value, Changes(asked, incident))
    ensures var source := Source(calls, incident);
      source.None? || KeyOf(source.value) != KeyOf(x) || source.value == x ==>
        Answer(r, After(r, calls), incident, x).1.outcome == Decide(r, Hypotheses(r, x))
  {
    var asked := calls + [Call(incident, x)];
    assert Front(asked) == calls;
    RemembersSource(r, calls, incident);
    RemembersSource(r, asked, incident);
  }

  /** Otherwise it may not be.  An answer is stale exactly when the key is the remembered
      one, and what the source leads to is not what the input leads to. */
  lemma StaleIff(r: Rules, calls: seq<Call>, incident: string, x: Input)
    ensures var source := Source(calls, incident);
      Answer(r, After(r, calls), incident, x).1.outcome != Decide(r, Hypotheses(r, x)) <==>
        source.Some? && KeyOf(source.value) == KeyOf(x)
        && Decide(r, Hypotheses(r, source.value)) != Decide(r, Hypotheses(r, x))
  {
    var asked := calls + [Call(incident, x)];
    assert Front(asked) == calls;
    AnswerIsConclusion(r, calls, incident, x);
  }

  /** Asked again under the same key. */
  lemma AskedAgain(r: Rules, calls: seq<Call>, name: string, x: Input, y: Input)
    requires KeyOf(x) == KeyOf(y)
    ensures var asked := calls + [Call(name, x)];
      var answer := Answer(r, After(r, asked), name, y).1;
      && Source(asked, name).Some?
      && answer == Answer(r, After(r, calls), name, x).1
      && (answer.outcome != Decide(r, Hypotheses(r, y)) <==>
            Decide(r, Hypotheses(r, Source(asked, name).value)) != Decide(r, Hypotheses(r, y)))
  {
    var asked := calls + [Call(name, x)];
    assert Front(asked) == calls;
    RemembersSource(r, asked, name);
    StaleIff(r, asked, name, y);
  }

  /** It happens: a later analysis that carries the same version is answered with the
      earlier conclusion, here no leader although there is one. */
  lemma SameVersionIsStale(r: Rules, incident: string, version: int)
    ensures var x, y := Seen(version, None), Seen(version, Some(KNOWN_SIGNATURE));
      && KeyOf(x) == KeyOf(y)
      && Answer(r, After(r, [Call(incident, x)]), incident, y).1.outcome.leading.None?
      && Decide(r, Hypotheses(r, y)).leading.Some?
  {
    var x, y := Seen(version, None), Seen(version, Some(KNOWN_SIGNATURE));
    assert [] + [Call(incident, x)] == [Call(incident, x)];
    AskedAgain(r, [], incident, x, y);
    LeaderSeen(r, version, None);
    LeaderSeen(r, version, Some(KNOWN_SIGNATURE));
  }

  const CHANGE := OperationalEvent("change", Deployment, 0, SERVICE, true, ["TOKEN_VALIDATION"], Some("v2.0.0"), None,
                                   None, [], [])

  function Seen(version: int, signature: Option<string>): Input {
    Input(Case(0, Analysis(version, None, signature)), [CHANGE], false)
  }

  lemma ErrorSeen(signature: Option<string>)
    requires signature.None? || signature == Some(KNOWN_SIGNATURE)
    ensures ErrorOf(signature, CHANGE).ErrorMatches? <==> signature.Some?
  {
    assert CHANGE.categories[0] == "TOKEN_VALIDATION";
  }

  /** The change leads exactly when the windows show the signature that belongs to it. */
  lemma LeaderSeen(r: Rules, version: int, signature: Option<string>)
    requires signature.None? || signature == Some(KNOWN_SIGNATURE)
    ensures Decide(r, Hypotheses(r, Seen(version, signature))).leading.Some? <==> signature.Some?
  {
    var x := Seen(version, signature);
    OneChange(r, x, CHANGE);
    ErrorSeen(signature);
    LeaderOfOne(r, Build(x.incident, CHANGE));
  }

  lemma LeaderOfOne(r: Rules, h: Hypothesis)
    ensures Decide(r, [h]).leading.Some? <==> Convincing(h.tier)
  {
    LeaderIff(r, [h]);
  }

  lemma OneChange(r: Rules, x: Input, e: OperationalEvent)
    requires x.events == [e] && !x.recovery && x.incident.analysis.best.None?
    requires e.service == SERVICE && e.at == x.incident.start
    ensures Hypotheses(r, x) == [Build(x.incident, e)]
    ensures Build(x.incident, e).tier ==
      if ErrorOf(x.incident.analysis.signature, e).ErrorMatches? then Moderate else Weak
  {
    assert Front([e]) == [];
    assert Built(r, x.incident, [e]) == [] + [Build(x.incident, e)];
  }

  // ---- the object -------------------------------------------------------------

  class Engine {
    const rules: Rules
    var latest: map<string, Result>
    var keys: map<string, Key>

    ghost function Value(): Memo
      reads this
    {
      Memo(latest, keys)
    }

    constructor (rules: Rules)
      ensures this.rules == rules && Value() == Memo(map[], map[])
    {
      this.rules := rules;
      latest, keys := map[], map[];
    }

    /** Sorts the events into candidates, rejected events and later rollbacks. */
    method Classify(c: Case, events: seq<OperationalEvent>)
      returns (candidates: seq<Hypothesis>, rejected: seq<Rejection>, rollbacks: seq<OperationalEvent>)
      ensures candidates == Built(rules, c, events)
      ensures rejected == Rejected(rules, c, events)
      ensures rollbacks == Later(rules, c, events)
    {
      candidates, rejected, rollbacks := [], [], [];
      for i := 0 to |events|
        invariant candidates == Built(rules, c, events[..i])
        invariant rejected == Rejected(rules, c, events[..i])
        invariant rollbacks == Later(rules, c, events[..i])
      {
        assert Front(events[..i+1]) == events[..i];
        match Judge(rules, c, events[i])
        case LaterRollback => rollbacks := rollbacks + [events[i]];
        case Declined(reason, hard) => rejected := rejected + [Rejection(events[i].id, reason, hard)];
        case Admitted => candidates := candidates + [Build(c, events[i])];
      }
      assert events[..|events|] == events;
    }

    /** Lets each later rollback of the change support the candidate. */
    method ConfirmOne(h: Hypothesis, e: OperationalEvent, rollbacks: seq<OperationalEvent>) returns (g: Hypothesis)
      ensures g == Confirm(h, e, rollbacks)
    {
      g := h;
      for i := 0 to |rollbacks|
        invariant g == Confirm(h, e, rollbacks[..i])
      {
        assert Front(rollbacks[..i+1]) == rollbacks[..i];
        if rollbacks[i].succeeded && Given(e.newVersion) && rollbacks[i].fromVersion == e.newVersion {
          g := g.(supporting := g.supporting + [RollbackRecovery(rollbacks[i].id)]);
          g := g.(tier := TierOf(g.supporting, true));
        }
      }
      assert rollbacks[..|rollbacks|] == rollbacks;
    }

    method ConfirmCandidates(candidates: seq<Hypothesis>, events: seq<OperationalEvent>,
                             rollbacks: seq<OperationalEvent>)
      returns (confirmed: seq<Hypothesis>)
      ensures confirmed == ConfirmAll(candidates, events, rollbacks)
    {
      confirmed := [];
      for i := 0 to |candidates|
        invariant confirmed == ConfirmAll(candidates[..i], events, rollbacks)
      {
        assert Front(candidates[..i+1]) == candidates[..i];
        var h := candidates[i];
        var j := ById(events, h.event.id);
        if j < |events| {
          h := ConfirmOne(h, events[j], rollbacks);
        }
        confirmed := confirmed + [h];
      }
      assert candidates[..|candidates|] == candidates;
    }

    /** Ranks the shortlist and marks its leader. */
    method Number(short: seq<Hypothesis>) returns (candidates: seq<Hypothesis>, leader: nat)
      ensures leader == LeaderIndex(short) && candidates == Numbered(short)
    {
      leader := 0;
      while leader < |short| && !Convincing(short[leader].tier)
        invariant leader <= |short| && forall j :: 0 <= j < leader ==> !Convincing(short[j].tier)
      {
        leader := leader + 1;
      }
      candidates := short;
      for i := 0 to |short|
        invariant |candidates| == |short|
        invariant forall j :: 0 <= j < |short| ==>
          candidates[j] == if j < i then short[j].(rank := j + 1, isLeading := false) else short[j]
      {
        candidates := candidates[i := candidates[i].(rank := i + 1, isLeading := false)];
      }
      if leader < |short| {
        candidates := candidates[leader := candidates[leader].(isLeading := true)];
      }
    }

    method DecideOn(candidates: seq<Hypothesis>) returns (outcome: Outcome)
      ensures outcome == Decide(rules, candidates)
    {
      var short := Shortlist(rules, Rank(candidates));
      var ranked, leader := Number(short);
      outcome := if leader < |short| then Outcome(short[leader].tier, Some(ranked[leader]), ranked)
                 else Outcome(Insufficient, None, ranked);
    }

    method Analyze(x: Input, version: nat) returns (result: Result)
      ensures result == Conclude(rules, x, version)
    {
      var candidates, rejected, rollbacks := Classify(x.incident, x.events);
      if x.recovery {
        candidates := ConfirmCandidates(candidates, x.events, rollbacks);
      }
      var outcome := DecideOn(candidates);
      result := Result(version, x.incident.analysis.version, outcome, rejected);
    }

    method Run(incident: string, x: Input) returns (result: Result)
      modifies this
      ensures Known(old(Value()), incident, KeyOf(x)) ==> Value() == old(Value()) && result == latest[incident]
      ensures !Known(old(Value()), incident, KeyOf(x)) ==>
        && result == Conclude(rules, x, NextVersion(old(Value()), incident))
        && Value() == Record(old(Value()), incident, KeyOf(x), result)
    {
      var key := KeyOf(x);
      if incident in keys && incident in latest && keys[incident] == key {
        return latest[incident];
      }
      result := Analyze(x, if incident in latest then latest[incident].version + 1 else 1);
      latest, keys := latest[incident := result], keys[incident := key];
    }
  }
}
