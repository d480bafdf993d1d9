/**
 The alert table under the periodic sweep and the REST endpoints.

 The sweep reads a rule's open record and, after an await, writes; requests may commit in
 between.  A deleted record leaves `None` behind, so a record keeps its number.
 */
module Alerts {
  import opened Basics
  import Breach

  datatype Status = Active | Acknowledged | Resolved

  datatype Record = Record(rule: nat, status: Status, triggeredAt: int,
      acknowledgedAt: Option<int>, resolvedAt: Option<int>)

  /** What the sweep has in hand between its read and its write. */
  datatype Sweep = Idle | Holding(rule: nat, breached: bool, found: Option<nat>)

  datatype Rule = Rule(server: nat, enabled: bool)

  /**
   `rules` are the existing rules; `todo` are those that the sweep has listed for the server at
   hand and not read yet.
   */
  datatype State = State(rules: map<nat, Rule>, records: seq<Option<Record>>, todo: seq<nat>, sweep: Sweep)

  const EMPTY := State(map[], [], [], Idle)

  datatype Step =
    | SweepList(server: nat, listed: seq<nat>)
    | SweepRead(breached: bool)
    | SweepWrite(now: int)
    | SweepAborts
    | Acknowledge(id: nat, now: int)
    | Resolve(id: nat, now: int)
    | CreateRule(rule: nat, server: nat)
    | EnableRule(rule: nat, enabled: bool)
    | DeleteRule(rule: nat)

  predicate Open(records: seq<Option<Record>>, id: nat, rule: nat) {
    id < |records| && records[id].Some? && records[id].value.rule == rule && !records[id].value.status.Resolved?
  }

  /** `scalars().first()`: the first open record of the rule. */
  function FirstOpen(records: seq<Option<Record>>, rule: nat): (found: Option<nat>)
    ensures found.Some? ==> Open(records, found.value, rule)
    ensures found == None ==> forall id :: !Open(records, id, rule)
  {
    if records == [] then None
    else
      var last := |records| - 1;
      var earlier := FirstOpen(records[..last], rule);
      if earlier.Some? then earlier
      else
        assert forall id :: 0 <= id < last ==> (Open(records, id, rule) ==> Open(records[..last], id, rule));
        if Open(records, last, rule) then Some(last) else None
  }

  /** A rule or record deleted since the read makes the database refuse the write, which ends the sweep's round. */
  predicate Refused(s: State)
    requires s.sweep.Holding?
  {
    if s.sweep.breached then s.sweep.found == None && s.sweep.rule !in s.rules
    else s.sweep.found.Some? && !(s.sweep.found.value < |s.records| && s.records[s.sweep.found.value].Some?)
  }

  /** The records after the sweep's write. */
  function Write(s: State, now: int): seq<Option<Record>>
    requires s.sweep.Holding?
  {
    if s.sweep.breached then
      if s.sweep.found == None && s.sweep.rule in s.rules then
        s.records + [Some(Record(s.sweep.rule, Active, now, None, None))]
      else s.records
    else if s.sweep.found.Some? && s.sweep.found.value < |s.records| && s.records[s.sweep.found.value].Some? then
      var id := s.sweep.found.value;
      s.records[id := Some(s.records[id].value.(status := Resolved, resolvedAt := Some(now)))]
    else s.records
  }

  /** The query's answer, in whatever order: the server's enabled rules, each once. */
  predicate Lists(rules: map<nat, Rule>, server: nat, listed: seq<nat>) {
    && (forall rule :: rule in rules && rules[rule] == Rule(server, true) ==> rule in listed)
    && (forall rule :: rule in listed ==> rule in rules && rules[rule] == Rule(server, true))
    && (forall i, j :: 0 <= i < j < |listed| ==> listed[i] != listed[j])
  }

  function Next(s: State, step: Step): State {
    match step
    case SweepList(server, listed) =>
      if s.sweep.Idle? && s.todo == [] && Lists(s.rules, server, listed) then s.(todo := listed) else s
    case SweepRead(breached) =>
      // a rule disabled or deleted since it was listed is still read
      if s.sweep.Idle? && s.todo != [] then
        s.(todo := s.todo[1..], sweep := Holding(s.todo[0], breached, FirstOpen(s.records, s.todo[0])))
      else s
    case SweepWrite(now) =>
      if s.sweep.Holding? then
        s.(records := Write(s, now), todo := if Refused(s) then [] else s.todo, sweep := Idle)
      else s
    case SweepAborts => s.(todo := [], sweep := Idle)
    case Acknowledge(id, now) =>
      if id < |s.records| && s.records[id].Some? then
        s.(records := s.records[id := Some(s.records[id].value.(status := Acknowledged, acknowledgedAt := Some(now)))])
      else s
    case Resolve(id, now) =>
      if id < |s.records| && s.records[id].Some? then
        s.(records := s.records[id := Some(s.records[id].value.(status := Resolved, resolvedAt := Some(now)))])
      else s
    case CreateRule(rule, server) =>
      if rule in s.rules then s else s.(rules := s.rules[rule := Rule(server, true)])
    case EnableRule(rule, enabled) =>
      if rule in s.rules then s.(rules := s.rules[rule := s.rules[rule].(enabled := enabled)]) else s
    case DeleteRule(rule) =>
      s.(rules := s.rules - {rule},
         records := seq(|s.records|, i requires 0 <= i < |s.records| =>
           if s.records[i].Some? && s.records[i].value.rule == rule then None else s.records[i]))
  }

  function Exec(s: State, steps: seq<Step>): State
    decreases |steps|
  {
    if steps == [] then s else Exec(Next(s, steps[0]), steps[1..])
  }

  // ----- What each step does, field by field -----

  /** Acknowledging and resolving set the status and its time on the one record asked for. */
  lemma RecordRequests(s: State, id: nat, now: int)
    ensures var t := Next(s, Acknowledge(id, now));
            && (id < |s.records| && s.records[id].Some? ==>
                  && t == s.(records := t.records) && |t.records| == |s.records| && t.records[id].Some?
                  && t.records[id].value.status == Acknowledged && t.records[id].value.acknowledgedAt == Some(now)
                  && t.records[id].value.rule == s.records[id].value.rule
                  && t.records[id].value.triggeredAt == s.records[id].value.triggeredAt
                  && t.records[id].value.resolvedAt == s.records[id].value.resolvedAt
                  && forall j :: 0 <= j < |s.records| && j != id ==> t.records[j] == s.records[j])
            && (!(id < |s.records| && s.records[id].Some?) ==> t == s)
    ensures var t := Next(s, Resolve(id, now));
            && (id < |s.records| && s.records[id].Some? ==>
                  && t == s.(records := t.records) && |t.records| == |s.records| && t.records[id].Some?
                  && t.records[id].value.status == Resolved && t.records[id].value.resolvedAt == Some(now)
                  && t.records[id].value.rule == s.records[id].value.rule
                  && t.records[id].value.triggeredAt == s.records[id].value.triggeredAt
                  && t.records[id].value.acknowledgedAt == s.records[id].value.acknowledgedAt
                  && forall j :: 0 <= j < |s.records| && j != id ==> t.records[j] == s.records[j])
            && (!(id < |s.records| && s.records[id].Some?) ==> t == s)
  {
  }

  /** Rules come enabled, are switched on and off, and go with all of their records and no other. */
  lemma RuleRequests(s: State, rule: nat, server: nat, enabled: bool)
    ensures var t := Next(s, CreateRule(rule, server));
            rule !in s.rules ==> t == s.(rules := s.rules[rule := Rule(server, true)])
    ensures var t := Next(s, EnableRule(rule, enabled));
            rule in s.rules ==> t == s.(rules := s.rules[rule := Rule(s.rules[rule].server, enabled)])
    ensures var t := Next(s, DeleteRule(rule));
            && t.rules == s.rules - {rule} && |t.records| == |s.records|
            && forall i :: 0 <= i < |s.records| ==>
                 t.records[i] == if s.records[i].Some? && s.records[i].value.rule == rule then None else s.records[i]
  {
  }

  /** The sweep takes on exactly the rules of a server that are enabled at that moment, each once, in any order. */
  lemma ListsEnabledRules(s: State, server: nat, listed: seq<nat>)
    requires s.sweep.Idle? && s.todo == []
    ensures var exact := && (forall rule :: rule in listed
                                            <==> rule in s.rules && s.rules[rule].server == server
                                                 && s.rules[rule].enabled)
                         && (forall i, j :: 0 <= i < j < |listed| ==> listed[i] != listed[j]);
            Next(s, SweepList(server, listed)) == if exact then s.(todo := listed) else s
  {
  }

  /**
   How a round goes on: the sweep reads the rules of its list in order, and a write returns it
   to the list, unless what it would insert for or change is gone by then; that, like any other
   error, ends the round.
   */
  lemma RoundGoesOn(s: State, breached: bool, now: int)
    ensures var t := Next(s, SweepRead(breached));
            s.sweep.Idle? && s.todo != [] ==>
              && t.sweep.Holding? && t.sweep.rule == s.todo[0] && t.sweep.breached == breached
              && [t.sweep.rule] + t.todo == s.todo && t.records == s.records && t.rules == s.rules
              && (t.sweep.found.Some? <==> exists id :: Open(s.records, id, s.todo[0]))
    ensures var t := Next(s, SweepWrite(now));
            s.sweep.Holding? ==>
              var gone := if s.sweep.breached then s.sweep.found == None && s.sweep.rule !in s.rules
                          else s.sweep.found.Some? && !(s.sweep.found.value < |s.records|
                                                        && s.records[s.sweep.found.value].Some?);
              && t.sweep.Idle? && t.rules == s.rules
              && (gone ==> t.todo == [] && t.records == s.records)
              && (!gone ==> t.todo == s.todo)
    ensures Next(s, SweepAborts) == s.(todo := [], sweep := Idle)
  {
  }

  // ----- At most one open record per rule -----

  ghost predicate OneOpen(s: State) {
    forall a, b, rule :: Open(s.records, a, rule) && Open(s.records, b, rule) ==> a == b
  }

  /** The sweep is about to open a record for `rule`. */
  predicate AboutToOpen(s: State, rule: nat) {
    s.sweep.Holding? && s.sweep.rule == rule && s.sweep.breached && s.sweep.found == None && rule in s.rules
  }

  ghost predicate Inv(s: State) {
    && OneOpen(s)
    && (s.sweep.Holding? && s.sweep.breached && s.sweep.found == None ==>
          forall id :: !Open(s.records, id, s.sweep.rule))
    && (s.sweep.Holding? && s.sweep.found.Some? ==>
          s.sweep.found.value < |s.records|
          && (s.records[s.sweep.found.value].Some? ==> s.records[s.sweep.found.value].value.rule == s.sweep.rule))
    && (forall id :: 0 <= id < |s.records| && s.records[id].Some? ==> s.records[id].value.rule in s.rules)
  }

  /** The requests the guarantee is for: an acknowledgement is of a record that is open. */
  predicate Proper(s: State, step: Step) {
    step.Acknowledge? && step.id < |s.records| && s.records[step.id].Some? ==>
      !s.records[step.id].value.status.Resolved?
  }

  predicate AllProper(s: State, steps: seq<Step>)
    decreases |steps|
  {
    steps == [] || (Proper(s, steps[0]) && AllProper(Next(s, steps[0]), steps[1..]))
  }

  /** Only the sweep's insert, or an improper acknowledgement, ever opens a record. */
  lemma OpenStep(s: State, step: Step, id: nat, rule: nat)
    requires Open(Next(s, step).records, id, rule) && !Open(s.records, id, rule)
    ensures (step.SweepWrite? && AboutToOpen(s, rule) && id == |s.records|) || !Proper(s, step)
  {
  }

  lemma InvStep(s: State, step: Step)
    requires Inv(s) && Proper(s, step)
    ensures Inv(Next(s, step))
  {
    var t := Next(s, step);
    forall a, rule | Open(t.records, a, rule) && !Open(s.records, a, rule)
      ensures step.SweepWrite? && AboutToOpen(s, rule) && a == |s.records|
    {
      OpenStep(s, step, a, rule);
    }
  }

  /** In every run whose acknowledgements are of open records, a rule has at most one open record. */
  lemma {:induction false} OneOpenAlways(s: State, steps: seq<Step>)
    requires Inv(s) && AllProper(s, steps)
    ensures Inv(Exec(s, steps)) && OneOpen(Exec(s, steps))
    decreases |steps|
  {
    if steps != [] {
      InvStep(s, steps[0]);
      OneOpenAlways(Next(s, steps[0]), steps[1..]);
    }
  }

  ghost predicate HasOpen(s: State, rule: nat) {
    exists id :: Open(s.records, id, rule)
  }

  /** The guard `acknowledge_alert` lacks. */
  ghost predicate MayAcknowledge(s: State, id: nat)
    requires id < |s.records| && s.records[id].Some?
  {
    var record := s.records[id].value;
    !record.status.Resolved? || !(HasOpen(s, record.rule) || AboutToOpen(s, record.rule))
  }

  lemma HarmfulAcknowledge(s: State, id: nat, now: int) returns (steps: seq<Step>)
    requires Inv(s) && id < |s.records| && s.records[id].Some? && !MayAcknowledge(s, id)
    ensures AllProper(Next(s, Acknowledge(id, now)), steps) && !OneOpen(Exec(Next(s, Acknowledge(id, now)), steps))
  {
    var t, rule := Next(s, Acknowledge(id, now)), s.records[id].value.rule;
    assert Open(t.records, id, rule);
    if other :| Open(s.records, other, rule) {
      steps := [];
      assert Open(t.records, other, rule);
    } else {
      steps := [SweepWrite(now)];
      var end := Next(t, steps[0]);
      assert Exec(end, steps[1..]) == end && AllProper(end, steps[1..]);
      assert Open(end.records, id, rule) && Open(end.records, |s.records|, rule);
    }
  }

  lemma HarmlessAcknowledge(s: State, id: nat, now: int)
    requires Inv(s) && id < |s.records| && s.records[id].Some? && MayAcknowledge(s, id)
    ensures Inv(Next(s, Acknowledge(id, now)))
  {
    var t, rule := Next(s, Acknowledge(id, now)), s.records[id].value.rule;
    forall a, r ensures Open(t.records, a, r) <==> Open(s.records, a, r) || (a == id && r == rule) {
    }
    assert Open(s.records, id, rule) || forall a :: !Open(s.records, a, rule);
  }

  /**
   Exactly when an acknowledgement is harmless: from any state that keeps the guarantee,
   acknowledging a record can lead to two open records of one rule, now or later in a run of
   proper steps, if and only if the record is resolved while its rule has another open record
   or the sweep is between finding none and opening one.
   */
  lemma AcknowledgeSafeIff(s: State, id: nat, now: int)
    requires Inv(s) && id < |s.records| && s.records[id].Some?
    ensures (forall steps :: AllProper(Next(s, Acknowledge(id, now)), steps) ==>
               OneOpen(Exec(Next(s, Acknowledge(id, now)), steps)))
            <==> MayAcknowledge(s, id)
  {
    if MayAcknowledge(s, id) {
      HarmlessAcknowledge(s, id, now);
      forall steps | AllProper(Next(s, Acknowledge(id, now)), steps)
        ensures OneOpen(Exec(Next(s, Acknowledge(id, now)), steps))
      {
        OneOpenAlways(Next(s, Acknowledge(id, now)), steps);
      }
    } else {
      var steps := HarmfulAcknowledge(s, id, now);
    }
  }

  lemma {:induction false} RunThen(s: State, first: seq<Step>, later: seq<Step>)
    ensures Exec(s, first + later) == Exec(Exec(s, first), later)
    ensures AllProper(s, first + later) <==> AllProper(s, first) && AllProper(Exec(s, first), later)
    decreases |first|
  {
    if first == [] {
      assert first + later == later;
    } else {
      assert (first + later)[1..] == first[1..] + later;
      RunThen(Next(s, first[0]), first[1..], later);
    }
  }

  /** One round of the sweep over a rule that breaches. */
  function Round(now: int): seq<Step> {
    [SweepList(0, [0]), SweepRead(true), SweepWrite(now)]
  }

  lemma RoundOpens(s: State, now: int)
    requires s.rules == map[0 := Rule(0, true)] && s.todo == [] && s.sweep.Idle? && forall id :: !Open(s.records, id, 0)
    ensures Exec(s, Round(now)) == s.(records := s.records + [Some(Record(0, Active, now, None, None))])
    ensures AllProper(s, Round(now))
  {
    var s1 := Next(s, SweepList(0, [0]));
    var s2 := Next(s1, SweepRead(true));
    var s3 := Next(s2, SweepWrite(now));
    assert Round(now)[1..] == [SweepRead(true), SweepWrite(now)] && Round(now)[1..][1..] == [SweepWrite(now)];
    assert Exec(s3, []) == s3 && AllProper(s3, []);
    assert Exec(s2, [SweepWrite(now)]) == s3 && AllProper(s2, [SweepWrite(now)]);
    assert Exec(s1, Round(now)[1..]) == s3 && AllProper(s1, Round(now)[1..]);
  }

  /** A run of one proper step. */
  lemma RunOfOne(s: State, step: Step)
    requires Proper(s, step)
    ensures Exec(s, [step]) == Next(s, step) && AllProper(s, [step])
  {
    assert Exec(Next(s, step), []) == Next(s, step) && AllProper(Next(s, step), []);
  }

  /** An alert, resolved by hand, and a second one of the same rule, open. */
  function TwoAlerts(): seq<Step> {
    [CreateRule(0, 0)] + Round(1) + [Resolve(0, 2)] + Round(3)
  }

  lemma TwoAlertsRun()
    ensures AllProper(EMPTY, TwoAlerts())
    ensures Exec(EMPTY, TwoAlerts())
            == State(map[0 := Rule(0, true)],
                     [Some(Record(0, Resolved, 1, None, Some(2))), Some(Record(0, Active, 3, None, None))], [], Idle)
  {
    var s1 := Next(EMPTY, CreateRule(0, 0));
    RunOfOne(EMPTY, CreateRule(0, 0));
    RoundOpens(s1, 1);
    RunThen(EMPTY, [CreateRule(0, 0)], Round(1));
    var s2 := Exec(s1, Round(1));
    RunOfOne(s2, Resolve(0, 2));
    RunThen(EMPTY, [CreateRule(0, 0)] + Round(1), [Resolve(0, 2)]);
    var s3 := Next(s2, Resolve(0, 2));
    assert s3.records == [Some(Record(0, Resolved, 1, None, Some(2)))];
    RoundOpens(s3, 3);
    RunThen(EMPTY, [CreateRule(0, 0)] + Round(1) + [Resolve(0, 2)], Round(3));
  }

  /** After that run the guard fails: acknowledging the first alert leaves two open alerts of one rule. */
  lemma AcknowledgedTwice()
    ensures var s := Exec(EMPTY, TwoAlerts());
            && AllProper(EMPTY, TwoAlerts()) && Inv(s)
            && |s.records| == 2 && s.records[0].Some? && !MayAcknowledge(s, 0)
            && !OneOpen(Next(s, Acknowledge(0, 4)))
  {
    TwoAlertsRun();
    OneOpenAlways(EMPTY, TwoAlerts());
    var s := Exec(EMPTY, TwoAlerts());
    assert Open(s.records, 1, 0);
    var end := Next(s, Acknowledge(0, 4));
    assert Open(end.records, 0, 0) && Open(end.records, 1, 0);
  }

  // ----- A rule left alone: one record per rising edge of its breach signal -----

  /** One sweep's verdict on a rule, and when its write happened. */
  datatype Sample = Sample(breached: bool, time: int)

  /** The records of one rule, oldest first. */
  function History(records: seq<Option<Record>>, rule: nat): seq<Record> {
    if records == [] then []
    else
      var last := records[|records| - 1];
      History(records[..|records| - 1], rule) + if last.Some? && last.value.rule == rule then [last.value] else []
  }

  function Swept(history: seq<Record>, rule: nat, sample: Sample): seq<Record> {
    if sample.breached then
      if forall r :: r in history ==> r.status.Resolved? then history + [Record(rule, Active, sample.time, None, None)]
      else history
    else
      seq(|history|, i requires 0 <= i < |history| =>
        if history[i].status.Resolved? then history[i]
        else history[i].(status := Resolved, resolvedAt := Some(sample.time)))
  }

  /** The history of a rule that only the sweep touches. */
  function SweptAll(rule: nat, samples: seq<Sample>): seq<Record> {
    if samples == [] then []
    else Swept(SweptAll(rule, samples[..|samples| - 1]), rule, samples[|samples| - 1])
  }

  predicate RisesAt(samples: seq<Sample>, i: nat)
    requires i < |samples|
  {
    samples[i].breached && (i == 0 || !samples[i - 1].breached)
  }

  /** Where the signal rises: a breach at the start, or after a sweep without one. */
  function Rises(samples: seq<Sample>): seq<nat> {
    if samples == [] then []
    else
      var n := |samples| - 1;
      Rises(samples[..n]) + if RisesAt(samples, n) then [n] else []
  }

  /** The first sweep after `i` without a breach. */
  function Fall(samples: seq<Sample>, i: nat): (j: Option<nat>)
    ensures j.Some? ==> i < j.value < |samples| && !samples[j.value].breached
    ensures forall k :: i < k < (if j.Some? then j.value else |samples|) ==> samples[k].breached
  {
    if samples == [] then None
    else
      var n := |samples| - 1;
      var earlier := Fall(samples[..n], i);
      assert forall k :: 0 <= k < n ==> samples[..n][k] == samples[k];
      if earlier.Some? then earlier
      else if i < n && !samples[n].breached then Some(n) else None
  }

  lemma {:induction false} RisesAreRises(samples: seq<Sample>)
    ensures forall k :: 0 <= k < |Rises(samples)| ==>
              Rises(samples)[k] < |samples| && RisesAt(samples, Rises(samples)[k])
    ensures forall k, l :: 0 <= k < l < |Rises(samples)| ==> Rises(samples)[k] < Rises(samples)[l]
  {
    if samples != [] {
      var init := samples[..|samples| - 1];
      RisesAreRises(init);
      forall k | 0 <= k < |Rises(init)| ensures RisesAt(samples, Rises(init)[k]) {
        assert RisesAt(init, Rises(init)[k]);
      }
    }
  }

  lemma {:induction false} EveryRiseIsListed(samples: seq<Sample>, i: nat)
    requires i < |samples| && RisesAt(samples, i)
    ensures i in Rises(samples)
  {
    if i < |samples| - 1 {
      EveryRiseIsListed(samples[..|samples| - 1], i);
    }
  }

  predicate RecordOfRise(rule: nat, samples: seq<Sample>, i: nat, r: Record)
    requires i < |samples|
  {
    var fall := Fall(samples, i);
    r == Record(rule, if fall == None then Active else Resolved, samples[i].time, None,
                if fall == None then None else Some(samples[fall.value].time))
  }

  /**
   The sweep detects edges.  For a rule that nothing else touches, its records are exactly the
   rises of its signal, in order; each carries the time of its rise and, once the signal has
   fallen, the time of that fall; and one is open exactly when the last sweep breached.
   */
  lemma {:induction false} RecordsAreEdges(rule: nat, samples: seq<Sample>)
    ensures |SweptAll(rule, samples)| == |Rises(samples)|
    ensures forall k :: 0 <= k < |Rises(samples)| ==>
              Rises(samples)[k] < |samples|
              && RecordOfRise(rule, samples, Rises(samples)[k], SweptAll(rule, samples)[k])
    ensures (exists r :: r in SweptAll(rule, samples) && !r.status.Resolved?)
            <==> samples != [] && samples[|samples| - 1].breached
  {
    RisesAreRises(samples);
    if samples != [] {
      var n := |samples| - 1;
      var init := samples[..n];
      RecordsAreEdges(rule, init);
      RisesAreRises(init);
      forall k | 0 <= k < |Rises(init)|
        ensures RecordOfRise(rule, samples, Rises(samples)[k], SweptAll(rule, samples)[k])
      {
        assert RecordOfRise(rule, init, Rises(init)[k], SweptAll(rule, init)[k]);
      }
    }
  }

  ghost predicate Monotone(samples: seq<Sample>) {
    forall i, j :: 0 <= i < j < |samples| ==> samples[i].time <= samples[j].time
  }

  /** Under a clock that never goes back, an alert ends no earlier than it starts. */
  lemma AlertEndsAfterStart(rule: nat, samples: seq<Sample>, k: nat)
    requires Monotone(samples) && k < |SweptAll(rule, samples)|
    ensures var r := SweptAll(rule, samples)[k]; r.resolvedAt.Some? ==> r.triggeredAt <= r.resolvedAt.value
  {
    RecordsAreEdges(rule, samples);
    assert RecordOfRise(rule, samples, Rises(samples)[k], SweptAll(rule, samples)[k]);
  }

  /** And it ends before any later alert of the rule starts: they meet at most at their ends. */
  lemma AlertsDoNotOverlap(rule: nat, samples: seq<Sample>, k: nat, l: nat)
    requires Monotone(samples) && k < l < |SweptAll(rule, samples)|
    ensures SweptAll(rule, samples)[k].resolvedAt.Some?
    ensures SweptAll(rule, samples)[k].resolvedAt.value <= SweptAll(rule, samples)[l].triggeredAt
  {
    RecordsAreEdges(rule, samples);
    RisesAreRises(samples);
    var history, rises := SweptAll(rule, samples), Rises(samples);
    assert RecordOfRise(rule, samples, rises[k], history[k]) && RecordOfRise(rule, samples, rises[l], history[l]);
    assert RisesAt(samples, rises[k]) && RisesAt(samples, rises[l]);
    var before := rises[l] - 1;
    assert rises[k] <= before && !samples[before].breached;
    assert Fall(samples, rises[k]).Some? && Fall(samples, rises[k]).value <= before;
  }

  /** A signal that stays up once it is up gives at most one alert, and that alert stays open. */
  lemma LastingBreachIsOneOpenAlert(rule: nat, samples: seq<Sample>)
    requires forall i, j :: 0 <= i < j < |samples| ==> (samples[i].breached ==> samples[j].breached)
    ensures var history := SweptAll(rule, samples);
            && |history| <= 1
            && (|history| == 1 <==> samples != [] && samples[|samples| - 1].breached)
            && (forall r :: r in history ==> r.status.Active? && r.resolvedAt == None)
  {
    RecordsAreEdges(rule, samples);
    RisesAreRises(samples);
    var history, rises := SweptAll(rule, samples), Rises(samples);
    forall k | 0 <= k < |history| ensures history[k].status.Active? && history[k].resolvedAt == None {
      assert RecordOfRise(rule, samples, rises[k], history[k]) && RisesAt(samples, rises[k]);
    }
  }

  /**
   With telemetry and rule fixed, an offline or certificate alert, once opened by a sweep, is
   the only one and stays open across all later sweeps.
   */
  lemma LastingAlert(rule: Breach.Rule, server: Breach.Server, id: nat, evaluated: seq<int>, samples: seq<Sample>)
    requires rule.metric.ServerOffline? || rule.metric.SslExpiry?
    requires |evaluated| == |samples| && forall i, j :: 0 <= i < j < |evaluated| ==> evaluated[i] <= evaluated[j]
    requires forall i :: 0 <= i < |samples| ==> samples[i].breached == Breach.Breached(rule, server, evaluated[i])
    ensures var history := SweptAll(id, samples);
            && |history| <= 1
            && (|history| == 1 <==> exists i :: 0 <= i < |samples| && samples[i].breached)
            && (forall r :: r in history ==> r.status.Active? && r.resolvedAt == None)
  {
    forall i, j | 0 <= i < j < |samples| && samples[i].breached ensures samples[j].breached {
      Breach.BreachPersists(rule, server, evaluated[i], evaluated[j]);
    }
    LastingBreachIsOneOpenAlert(id, samples);
    if samples != [] {
      var last := |samples| - 1;
      assert forall i :: 0 <= i < last && samples[i].breached ==> samples[last].breached;
    }
  }

  // ----- The same, inside the full system -----

  /** The step leaves the rule itself and its records alone, unless it is the sweep. */
  predicate LeavesAlone(s: State, step: Step, rule: nat) {
    match step
    case Acknowledge(id, _) => !(id < |s.records| && s.records[id].Some? && s.records[id].value.rule == rule)
    case Resolve(id, _) => !(id < |s.records| && s.records[id].Some? && s.records[id].value.rule == rule)
    case DeleteRule(r) => r != rule
    case _ => true
  }

  lemma {:induction false} HistoryUpdated(records: seq<Option<Record>>, id: nat, r: Option<Record>, rule: nat)
    requires id < |records|
    requires records[id].Some? ==> records[id].value.rule != rule
    requires r.Some? ==> r.value.rule != rule
    ensures History(records[id := r], rule) == History(records, rule)
  {
    var last := |records| - 1;
    assert records[id := r][..last] == if id == last then records[..last] else records[..last][id := r];
    if id < last {
      HistoryUpdated(records[..last], id, r, rule);
    }
  }

  lemma {:induction false} HistoryWithout(records: seq<Option<Record>>, after: seq<Option<Record>>,
                                       gone: nat, rule: nat)
    requires gone != rule && |after| == |records|
    requires forall i :: 0 <= i < |records| ==>
               after[i] == if records[i].Some? && records[i].value.rule == gone then None else records[i]
    ensures History(after, rule) == History(records, rule)
  {
    if records != [] {
      HistoryWithout(records[..|records| - 1], after[..|records| - 1], gone, rule);
    }
  }

  lemma SweptOneMore(history: seq<Record>, r: Record, rule: nat, now: int)
    ensures Swept(history + [r], rule, Sample(false, now)) ==
            Swept(history, rule, Sample(false, now))
            + [if r.status.Resolved? then r else r.(status := Resolved, resolvedAt := Some(now))]
  {
  }

  lemma {:induction false} AllResolved(records: seq<Option<Record>>, rule: nat, now: int)
    requires forall a :: !Open(records, a, rule)
    ensures forall r :: r in History(records, rule) ==> r.status.Resolved?
    ensures Swept(History(records, rule), rule, Sample(false, now)) == History(records, rule)
  {
    if records != [] {
      var last := |records| - 1;
      forall a: nat ensures !Open(records[..last], a, rule) {
        assert !Open(records, a, rule);
      }
      AllResolved(records[..last], rule, now);
      assert !Open(records, last, rule);
    }
  }

  lemma LastResolved(records: seq<Option<Record>>, rule: nat, now: int)
    requires records != [] && Open(records, |records| - 1, rule)
    requires forall a :: Open(records, a, rule) ==> a == |records| - 1
    ensures var last := |records| - 1;
            History(records[last := Some(records[last].value.(status := Resolved, resolvedAt := Some(now)))], rule)
            == Swept(History(records, rule), rule, Sample(false, now))
  {
    var last := |records| - 1;
    var init := records[..last];
    assert records[last := Some(records[last].value.(status := Resolved, resolvedAt := Some(now)))][..last] == init;
    forall a: nat ensures !Open(init, a, rule) {
      assert Open(init, a, rule) ==> Open(records, a, rule);
    }
    AllResolved(init, rule, now);
    SweptOneMore(History(init, rule), records[last].value, rule, now);
  }

  /** With one open record, resolving it is what `Swept` does to the rule's history. */
  lemma {:induction false} HistoryResolved(records: seq<Option<Record>>, id: nat, rule: nat, now: int)
    requires Open(records, id, rule) && forall a :: Open(records, a, rule) ==> a == id
    ensures History(records[id := Some(records[id].value.(status := Resolved, resolvedAt := Some(now)))], rule)
            == Swept(History(records, rule), rule, Sample(false, now))
  {
    var last := |records| - 1;
    var init := records[..last];
    var resolved := Some(records[id].value.(status := Resolved, resolvedAt := Some(now)));
    forall a | Open(init, a, rule) ensures a == id {
      assert Open(records, a, rule);
    }
    if id < last {
      assert records[id := resolved][..last] == init[id := resolved];
      assert Open(init, id, rule) && !Open(records, last, rule);
      HistoryResolved(init, id, rule, now);
      if records[last].Some? && records[last].value.rule == rule {
        SweptOneMore(History(init, rule), records[last].value, rule, now);
      }
    } else {
      LastResolved(records, rule, now);
    }
  }

  /** What the sweep holds about `rule` is still what its read would find. */
  predicate UpToDate(s: State, rule: nat) {
    s.sweep.Holding? && s.sweep.rule == rule ==> s.sweep.found == FirstOpen(s.records, rule)
  }

  predicate WritesFor(s: State, step: Step, rule: nat) {
    step.SweepWrite? && s.sweep.Holding? && s.sweep.rule == rule
  }

  lemma {:induction false} OpenIsInHistory(records: seq<Option<Record>>, id: nat, rule: nat)
    requires Open(records, id, rule)
    ensures records[id].value in History(records, rule)
  {
    if id < |records| - 1 {
      OpenIsInHistory(records[..|records| - 1], id, rule);
    }
  }

  lemma NothingFoundIsSwept(s: State, rule: nat, now: int)
    requires s.sweep.Holding? && s.sweep.rule == rule && rule in s.rules
    requires s.sweep.found == None && forall id :: !Open(s.records, id, rule)
    ensures History(Write(s, now), rule) == Swept(History(s.records, rule), rule, Sample(s.sweep.breached, now))
  {
    AllResolved(s.records, rule, now);
    if s.sweep.breached {
      assert Write(s, now)[..|s.records|] == s.records;
    }
  }

  lemma FoundAndBreachedIsSwept(s: State, rule: nat, now: int)
    requires s.sweep.Holding? && s.sweep.breached && s.sweep.found.Some? && Open(s.records, s.sweep.found.value, rule)
    ensures History(Write(s, now), rule) == Swept(History(s.records, rule), rule, Sample(true, now))
  {
    OpenIsInHistory(s.records, s.sweep.found.value, rule);
  }

  lemma FoundAndOverIsSwept(s: State, rule: nat, now: int)
    requires s.sweep.Holding? && !s.sweep.breached && s.sweep.found.Some? && Open(s.records, s.sweep.found.value, rule)
    requires forall id :: Open(s.records, id, rule) ==> id == s.sweep.found.value
    ensures History(Write(s, now), rule) == Swept(History(s.records, rule), rule, Sample(false, now))
  {
    HistoryResolved(s.records, s.sweep.found.value, rule, now);
  }

  lemma WriteIsSwept(s: State, rule: nat, now: int)
    requires Inv(s) && rule in s.rules && UpToDate(s, rule) && s.sweep.Holding? && s.sweep.rule == rule
    ensures History(Write(s, now), rule) == Swept(History(s.records, rule), rule, Sample(s.sweep.breached, now))
  {
    if s.sweep.found == None {
      NothingFoundIsSwept(s, rule, now);
    } else if s.sweep.breached {
      FoundAndBreachedIsSwept(s, rule, now);
    } else {
      FoundAndOverIsSwept(s, rule, now);
    }
  }

  lemma OtherRuleWrite(s: State, rule: nat, now: int)
    requires Inv(s) && s.sweep.Holding? && s.sweep.rule != rule
    ensures History(Write(s, now), rule) == History(s.records, rule)
    ensures forall id :: Open(Write(s, now), id, rule) <==> Open(s.records, id, rule)
  {
    var found, records := s.sweep.found, Write(s, now);
    if |records| > |s.records| {
      assert records[..|s.records|] == s.records;
    } else if records != s.records {
      HistoryUpdated(s.records, found.value, records[found.value], rule);
    }
  }

  /** A step that is not this rule's write leaves its history, and what is open in it, as they were. */
  lemma OtherStep(s: State, step: Step, rule: nat)
    requires Inv(s) && rule in s.rules && LeavesAlone(s, step, rule) && !WritesFor(s, step, rule)
    ensures History(Next(s, step).records, rule) == History(s.records, rule)
    ensures forall id :: Open(Next(s, step).records, id, rule) <==> Open(s.records, id, rule)
    ensures rule in Next(s, step).rules
  {
    var t := Next(s, step);
    match step
    case SweepWrite(now) => if s.sweep.Holding? { OtherRuleWrite(s, rule, now); }
    case Acknowledge(id, now) => if t != s { HistoryUpdated(s.records, id, t.records[id], rule); }
    case Resolve(id, now) => if t != s { HistoryUpdated(s.records, id, t.records[id], rule); }
    case DeleteRule(gone) => HistoryWithout(s.records, t.records, gone, rule);
    case _ =>
  }

  /** Every step of the run is proper and leaves `rule` to the sweep. */
  predicate Untouched(s: State, steps: seq<Step>, rule: nat)
    decreases |steps|
  {
    steps == [] ||
    (Proper(s, steps[0]) && LeavesAlone(s, steps[0], rule) && Untouched(Next(s, steps[0]), steps[1..], rule))
  }

  function SampleOf(s: State, step: Step, rule: nat): seq<Sample> {
    if WritesFor(s, step, rule) then [Sample(s.sweep.breached, step.now)] else []
  }

  /** The verdicts on `rule` that the run's sweeps wrote. */
  function SamplesOf(s: State, steps: seq<Step>, rule: nat): seq<Sample>
    decreases |steps|
  {
    if steps == [] then [] else SampleOf(s, steps[0], rule) + SamplesOf(Next(s, steps[0]), steps[1..], rule)
  }

  /** Nothing puts the rule on the sweep's list: it is disabled, and stays so. */
  predicate StaysDisabled(steps: seq<Step>, rule: nat) {
    forall i :: 0 <= i < |steps| ==>
      !(steps[i].CreateRule? && steps[i].rule == rule)
      && !(steps[i].EnableRule? && steps[i].rule == rule && steps[i].enabled)
  }

  /** A disabled rule that the sweep has neither listed nor in hand is not swept: no verdict on it is ever written. */
  lemma {:induction false} DisabledRuleIsNotSwept(s: State, steps: seq<Step>, rule: nat)
    requires rule !in s.todo && !(s.sweep.Holding? && s.sweep.rule == rule)
    requires (rule in s.rules ==> !s.rules[rule].enabled) && StaysDisabled(steps, rule)
    ensures SamplesOf(s, steps, rule) == []
    decreases |steps|
  {
    if steps != [] {
      var step, t := steps[0], Next(s, steps[0]);
      assert !(step.CreateRule? && step.rule == rule) && !(step.EnableRule? && step.rule == rule && step.enabled);
      if step.SweepRead? && s.todo != [] {
        assert s.todo[0] in s.todo;
      }
      DisabledRuleIsNotSwept(t, steps[1..], rule);
    }
  }

  lemma UpToDateStep(s: State, step: Step, rule: nat)
    requires Inv(s) && Proper(s, step) && rule in s.rules && UpToDate(s, rule) && LeavesAlone(s, step, rule)
    ensures Inv(Next(s, step)) && rule in Next(s, step).rules && UpToDate(Next(s, step), rule)
  {
    InvStep(s, step);
    if !WritesFor(s, step, rule) {
      OtherStep(s, step, rule);
    }
  }

  lemma HistoryStep(s: State, step: Step, rule: nat, before: seq<Sample>)
    requires Inv(s) && rule in s.rules && UpToDate(s, rule) && LeavesAlone(s, step, rule)
    requires History(s.records, rule) == SweptAll(rule, before)
    ensures History(Next(s, step).records, rule) == SweptAll(rule, before + SampleOf(s, step, rule))
  {
    if WritesFor(s, step, rule) {
      WriteIsSwept(s, rule, step.now);
      assert (before + SampleOf(s, step, rule))[..|before|] == before;
    } else {
      OtherStep(s, step, rule);
      assert before + SampleOf(s, step, rule) == before;
    }
  }

  lemma Regroup(a: seq<Sample>, b: seq<Sample>, c: seq<Sample>)
    ensures a + b + c == a + (b + c)
    ensures a + [] == a
  {
  }

  /**
   In the full system, with sweeps of other rules and requests on other rules interleaved at
   will, a rule that starts without records and is left to the sweep has exactly the edge
   records of its own verdicts.  (`before` lets the claim be made from any point of a run.)
   */
  lemma {:induction false} SystemDetectsEdges(s: State, steps: seq<Step>, rule: nat, before: seq<Sample>)
    requires Inv(s) && rule in s.rules && UpToDate(s, rule) && Untouched(s, steps, rule)
    requires History(s.records, rule) == SweptAll(rule, before)
    ensures History(Exec(s, steps).records, rule) == SweptAll(rule, before + SamplesOf(s, steps, rule))
    decreases |steps|
  {
    if steps == [] {
      Regroup(before, [], []);
    } else {
      var t, sample := Next(s, steps[0]), SampleOf(s, steps[0], rule);
      UpToDateStep(s, steps[0], rule);
      HistoryStep(s, steps[0], rule, before);
      SystemDetectsEdges(t, steps[1..], rule, before + sample);
      Regroup(before, sample, SamplesOf(t, steps[1..], rule));
    }
  }

  /**
   Persistence, of the table itself and under everything else that goes on: with telemetry and
   rule fixed, and the rule left to the sweep, an offline or certificate rule that starts
   without records has at most one, from its first breach on, and that one stays active.
   */
  lemma LastingAlertInSystem(s: State, steps: seq<Step>, id: nat, rule: Breach.Rule, server: Breach.Server,
                             evaluated: seq<int>, samples: seq<Sample>)
    requires Inv(s) && id in s.rules && UpToDate(s, id) && Untouched(s, steps, id) && History(s.records, id) == []
    requires rule.metric.ServerOffline? || rule.metric.SslExpiry?
    requires samples == SamplesOf(s, steps, id) && |evaluated| == |samples|
    requires forall i, j :: 0 <= i < j < |evaluated| ==> evaluated[i] <= evaluated[j]
    requires forall i :: 0 <= i < |samples| ==> samples[i].breached == Breach.Breached(rule, server, evaluated[i])
    ensures var history := History(Exec(s, steps).records, id);
            && |history| <= 1
            && (|history| == 1 <==> exists i :: 0 <= i < |samples| && samples[i].breached)
            && (forall r :: r in history ==> r.status.Active? && r.resolvedAt == None)
  {
    SystemDetectsEdges(s, steps, id, []);
    assert [] + samples == samples;
    LastingAlert(rule, server, id, evaluated, samples);
  }

  // ----- The table itself -----

  lemma {:induction false} FirstOpenIs(records: seq<Option<Record>>, rule: nat, id: nat)
    requires Open(records, id, rule) && forall j :: 0 <= j < id ==> !Open(records, j, rule)
    ensures FirstOpen(records, rule) == Some(id)
  {
    var init := records[..|records| - 1];
    if id < |init| {
      forall j | 0 <= j < id ensures !Open(init, j, rule) {
        assert !Open(records, j, rule);
      }
      FirstOpenIs(init, rule, id);
    } else {
      forall j: nat ensures !Open(init, j, rule) {
        assert j < id ==> !Open(records, j, rule);
      }
    }
  }

  class AlertTable {
    var rules: map<nat, Rule>
    var records: seq<Option<Record>>
    var todo: seq<nat>
    var sweep: Sweep

    ghost function View(): State
      reads this
    {
      State(rules, records, todo, sweep)
    }

    constructor ()
      ensures View() == EMPTY && Inv(View())
    {
      rules, records, todo, sweep := map[], [], [], Idle;
    }

    /** The sweep's query: the first record of the rule that is active or acknowledged. */
    method FindOpen(rule: nat) returns (found: Option<nat>)
      ensures found == FirstOpen(records, rule)
    {
      var i := 0;
      while i < |records|
        invariant 0 <= i <= |records|
        invariant forall j :: 0 <= j < i ==> !Open(records, j, rule)
      {
        if Open(records, i, rule) {
          FirstOpenIs(records, rule, i);
          return Some(i);
        }
        i := i + 1;
      }
      return None;
    }

    /** The rules of one server that are enabled as the query runs, in whatever order the database has them. */
    method ListRules(server: nat)
      requires sweep.Idle? && todo == []
      modifies this`todo
      ensures forall rule :: rule in todo <==> rule in rules && rules[rule].server == server && rules[rule].enabled
      ensures forall i, j :: 0 <= i < j < |todo| ==> todo[i] != todo[j]
      ensures View() == Next(old(View()), SweepList(server, todo))
    {
      var left := rules.Keys;
      while left != {}
        invariant left <= rules.Keys
        invariant forall rule :: rule in rules && rules[rule] == Rule(server, true) ==> rule in left || rule in todo
        invariant forall rule :: rule in todo ==> rule in rules && rules[rule] == Rule(server, true) && rule !in left
        invariant forall i, j :: 0 <= i < j < |todo| ==> todo[i] != todo[j]
        decreases |left|
      {
        var rule :| rule in left;
        left := left - {rule};
        if rules[rule] == Rule(server, true) {
          todo := todo + [rule];
        }
      }
    }

    /** The next listed rule, whatever has become of it since it was listed. */
    method ReadRule(breached: bool)
      requires sweep.Idle? && todo != []
      modifies this`todo, this`sweep
      ensures View() == Next(old(View()), SweepRead(breached))
    {
      var rule := todo[0];
      var found := FindOpen(rule);
      todo := todo[1..];
      sweep := Holding(rule, breached, found);
    }

    method WriteRule(now: int)
      requires sweep.Holding?
      modifies this`records, this`todo, this`sweep
      ensures View() == Next(old(View()), SweepWrite(now))
    {
      if sweep.breached {
        if sweep.found == None {
          if sweep.rule in rules {
            records := records + [Some(Record(sweep.rule, Active, now, None, None))];
          } else {
            todo := [];
          }
        }
      } else if sweep.found.Some? {
        var id := sweep.found.value;
        if id < |records| && records[id].Some? {
          records := records[id := Some(records[id].value.(status := Resolved, resolvedAt := Some(now)))];
        } else {
          todo := [];
        }
      }
      sweep := Idle;
    }

    method AcknowledgeAlert(id: nat, now: int) returns (known: bool)
      modifies this`records
      ensures known <==> id < |old(records)| && old(records)[id].Some?
      ensures View() == Next(old(View()), Step.Acknowledge(id, now))
    {
      known := id < |records| && records[id].Some?;
      if known {
        records := records[id := Some(records[id].value.(status := Acknowledged, acknowledgedAt := Some(now)))];
      }
    }

    method ResolveAlert(id: nat, now: int) returns (known: bool)
      modifies this`records
      ensures known <==> id < |old(records)| && old(records)[id].Some?
      ensures View() == Next(old(View()), Step.Resolve(id, now))
    {
      known := id < |records| && records[id].Some?;
      if known {
        records := records[id := Some(records[id].value.(status := Resolved, resolvedAt := Some(now)))];
      }
    }
  }
}
