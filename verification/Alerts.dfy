/** Deduplication of operational alerts, rac/notifications/service.py. */
module Alerts {
  datatype Message = KillSwitchActive | KillSwitchReset | DrawdownAlert(pct: real)

  /** What the service remembers, and the messages it has tried to send. */
  datatype State = State(killAlerted: bool, lastDrawdown: real, sent: seq<Message>)

  const START := State(false, 0.0, [])

  const ESCALATION_STEP := 5.0

  datatype Event = Activated | Deactivated | Reading(pct: real, threshold: real)

  function After(s: State, e: Event): State
  {
    match e
    case Activated => if s.killAlerted then s else s.(killAlerted := true, sent := s.sent + [KillSwitchActive])
    case Deactivated => if !s.killAlerted then s else s.(killAlerted := false, sent := s.sent + [KillSwitchReset])
    case Reading(pct, threshold) =>
      if pct < threshold then (if s.lastDrawdown > 0.0 then s.(lastDrawdown := 0.0) else s)
      else if pct < s.lastDrawdown + ESCALATION_STEP then s
      else s.(lastDrawdown := pct, sent := s.sent + [DrawdownAlert(pct)])
  }

  function AfterAll(s: State, events: seq<Event>): State
  {
    if events == [] then s else After(AfterAll(s, events[..|events| - 1]), events[|events| - 1])
  }

  class AlertService {
    var killSwitchAlerted: bool
    var lastDrawdownAlerted: real
    var sent: seq<Message>

    function Now(): State
      reads this
    {
      State(killSwitchAlerted, lastDrawdownAlerted, sent)
    }

    constructor ()
      ensures Now() == START
    {
      killSwitchAlerted, lastDrawdownAlerted, sent := false, 0.0, [];
    }

    method OnKillSwitchActive()
      modifies this
      ensures Now() == After(old(Now()), Activated)
      ensures KillConsistent(old(Now())) ==> KillConsistent(Now()) && killSwitchAlerted
    {
      StepKeepsKillConsistentIf(Now(), Activated);
      hide KillConsistent;
      if killSwitchAlerted {
        return;
      }
      killSwitchAlerted := true;
      sent := sent + [KillSwitchActive];
    }

    method OnKillSwitchReset()
      modifies this
      ensures Now() == After(old(Now()), Deactivated)
      ensures KillConsistent(old(Now())) ==> KillConsistent(Now()) && !killSwitchAlerted
    {
      StepKeepsKillConsistentIf(Now(), Deactivated);
      hide KillConsistent;
      if !killSwitchAlerted {
        return;
      }
      killSwitchAlerted := false;
      sent := sent + [KillSwitchReset];
    }

    method OnDrawdown(pct: real, threshold: real)
      modifies this
      ensures Now() == After(old(Now()), Reading(pct, threshold))
      ensures KillConsistent(old(Now())) ==> KillConsistent(Now())
      ensures threshold <= pct ==> pct < lastDrawdownAlerted + ESCALATION_STEP
      ensures pct < threshold ==> lastDrawdownAlerted <= 0.0 && sent == old(sent)
      ensures threshold <= pct ==> old(lastDrawdownAlerted) <= lastDrawdownAlerted
    {
      StepKeepsKillConsistentIf(Now(), Reading(pct, threshold));
      hide KillConsistent;
      if pct < threshold {
        if lastDrawdownAlerted > 0.0 {
          lastDrawdownAlerted := 0.0;
        }
        return;
      }
      if pct < lastDrawdownAlerted + ESCALATION_STEP {
        return;
      }
      lastDrawdownAlerted := pct;
      sent := sent + [DrawdownAlert(pct)];
    }
  }

  // ---------------------------------------------------------------- kill switch

  function KillMessages(sent: seq<Message>): seq<Message>
  {
    if sent == [] then []
    else
      KillMessages(sent[..|sent| - 1]) + if sent[|sent| - 1].DrawdownAlert? then [] else [sent[|sent| - 1]]
  }

  /** Active, reset, active, ... */
  ghost predicate Alternates(messages: seq<Message>)
  {
    forall i :: 0 <= i < |messages| ==> messages[i] == if i % 2 == 0 then KillSwitchActive else KillSwitchReset
  }

  lemma KillMessagesSnoc(sent: seq<Message>, m: Message)
    ensures KillMessages(sent + [m]) == if m.DrawdownAlert? then KillMessages(sent) else KillMessages(sent) + [m]
  {
    assert (sent + [m])[..|sent|] == sent;
  }

  ghost predicate KillConsistent(s: State)
  {
    Alternates(KillMessages(s.sent)) && (s.killAlerted <==> |KillMessages(s.sent)| % 2 == 1)
  }

  lemma StepKeepsKillConsistent(s: State, e: Event)
    requires KillConsistent(s)
    ensures KillConsistent(After(s, e))
  {
    hide KillMessages;
    match e {
      case Activated => KillMessagesSnoc(s.sent, KillSwitchActive);
      case Deactivated => KillMessagesSnoc(s.sent, KillSwitchReset);
      case Reading(pct, _) => KillMessagesSnoc(s.sent, DrawdownAlert(pct));
    }
  }

  lemma StepKeepsKillConsistentIf(s: State, e: Event)
    ensures KillConsistent(s) ==> KillConsistent(After(s, e))
  {
    if KillConsistent(s) {
      StepKeepsKillConsistent(s, e);
    }
  }

  /** Over every run the kill-switch messages strictly alternate, starting with
      an activation, and the service remembers which came last. */
  lemma {:induction false} KillSwitchAlternates(events: seq<Event>)
    ensures KillConsistent(AfterAll(START, events))
  {
    hide After;
    if events != [] {
      hide KillConsistent;
      KillSwitchAlternates(events[..|events| - 1]);
      StepKeepsKillConsistent(AfterAll(START, events[..|events| - 1]), events[|events| - 1]);
    }
  }

  // ---------------------------------------------------------------- drawdown

  function DrawdownAlerts(sent: seq<Message>): nat
  {
    if sent == [] then 0
    else DrawdownAlerts(sent[..|sent| - 1]) + if sent[|sent| - 1].DrawdownAlert? then 1 else 0
  }

  lemma DrawdownAlertsSnoc(sent: seq<Message>, m: Message)
    ensures DrawdownAlerts(sent + [m]) == DrawdownAlerts(sent) + if m.DrawdownAlert? then 1 else 0
  {
    assert (sent + [m])[..|sent|] == sent;
  }

  /** Every reading breaches its threshold and stays within `cap`. */
  ghost predicate Episode(events: seq<Event>, cap: real)
  {
    forall i :: 0 <= i < |events| && events[i].Reading? ==> events[i].threshold <= events[i].pct <= cap
  }

  lemma StepInEpisode(s: State, e: Event, cap: real)
    requires e.Reading? ==> e.threshold <= e.pct <= cap
    ensures var t := After(s, e);
      && (t.lastDrawdown == s.lastDrawdown || s.lastDrawdown + ESCALATION_STEP <= t.lastDrawdown <= cap)
      && DrawdownAlerts(t.sent) == DrawdownAlerts(s.sent) + (if t.lastDrawdown == s.lastDrawdown then 0 else 1)
      && (e.Reading? ==> e.pct < t.lastDrawdown + ESCALATION_STEP)
  {
    hide DrawdownAlerts;
    match e {
      case Activated => DrawdownAlertsSnoc(s.sent, KillSwitchActive);
      case Deactivated => DrawdownAlertsSnoc(s.sent, KillSwitchReset);
      case Reading(pct, _) => DrawdownAlertsSnoc(s.sent, DrawdownAlert(pct));
    }
  }

  /** While the drawdown stays above its threshold each alert is at least one
      step deeper than the one before, so there are few of them, and the last
      alert is never a full step behind any reading. */
  lemma {:induction false} EpisodeAlertsAreFew(s: State, events: seq<Event>, cap: real)
    requires Episode(events, cap)
    ensures var t := AfterAll(s, events);
      && s.lastDrawdown <= t.lastDrawdown
      && (t.lastDrawdown == s.lastDrawdown || t.lastDrawdown <= cap)
      && ESCALATION_STEP * (DrawdownAlerts(t.sent) - DrawdownAlerts(s.sent)) as real <= t.lastDrawdown - s.lastDrawdown
      && forall i :: 0 <= i < |events| && events[i].Reading? ==> events[i].pct < t.lastDrawdown + ESCALATION_STEP
  {
    hide After, DrawdownAlerts;
    if events != [] {
      var front, e := events[..|events| - 1], events[|events| - 1];
      EpisodeAlertsAreFew(s, front, cap);
      StepInEpisode(AfterAll(s, front), e, cap);
      assert forall i :: 0 <= i < |front| ==> events[i] == front[i];
    }
  }

  /** After a quiet spell a breach is announced exactly when it is also a full
      step deep: with a threshold under five percent the first breach is silent. */
  lemma FirstBreachAnnouncedIff(s: State, pct: real, threshold: real)
    requires s.lastDrawdown == 0.0 && threshold <= pct
    ensures |After(s, Reading(pct, threshold)).sent| > |s.sent| <==> ESCALATION_STEP <= pct
  {}

  // ---------------------------------------------------------------- what is remembered

  /** The drawdown of the newest alert that is not followed by a reading under its
      threshold; zero when there is none. */
  function Standing(events: seq<Event>): real
  {
    if events == [] then 0.0
    else
      var before, e := Standing(events[..|events| - 1]), events[|events| - 1];
      if !e.Reading? then before
      else if e.pct < e.threshold then 0.0
      else if before + 5.0 <= e.pct then e.pct
      else before
  }

  /** Whether the kill switch was reported active last. */
  function SwitchedOn(events: seq<Event>): bool
  {
    events != [] &&
    match events[|events| - 1]
    case Activated => true
    case Deactivated => false
    case Reading(_, _) => SwitchedOn(events[..|events| - 1])
  }

  /** Over every run the service remembers the drawdown it announced last, forgets
      it once the threshold is no longer breached, and knows the kill switch. */
  lemma {:induction false} RunRemembers(events: seq<Event>)
    ensures var s := AfterAll(START, events);
      s.lastDrawdown == Standing(events) >= 0.0 && (s.killAlerted <==> SwitchedOn(events))
  {
    if events != [] {
      RunRemembers(events[..|events| - 1]);
    }
  }

  /** The next event is announced exactly when the switch changes, or a breach is
      five percent beyond what stands; the message says which. */
  lemma AnnouncedIff(events: seq<Event>, e: Event)
    ensures var before, after := AfterAll(START, events).sent, AfterAll(START, events + [e]).sent;
      && (e.Activated? ==> after == if SwitchedOn(events) then before else before + [KillSwitchActive])
      && (e.Deactivated? ==> after == if SwitchedOn(events) then before + [KillSwitchReset] else before)
      && (e.Reading? ==> after == if e.threshold <= e.pct && Standing(events) + 5.0 <= e.pct
                                  then before + [DrawdownAlert(e.pct)] else before)
  {
    assert (events + [e])[..|events|] == events;
    RunRemembers(events);
  }
}
