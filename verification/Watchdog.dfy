/**
  The watchdog of common/rtsp/RtspSession.cpp in a release build: handling a message sets m_IsAlive, a
  check every ten seconds clears it or, finding it cleared, reports the peer as disconnected.
*/
module Watchdog {
  import opened Messages
  import opened RtspSessions

  const PERIOD := 10000   // milliseconds

  datatype Event = Heard | Check

  datatype Timed = Timed(at: int, event: Event)

  /** m_IsAlive after a history, starting from the constructor's true. */
  function Flag(events: seq<Timed>): bool {
    if events == [] then true
    else
      var before := Flag(events[..|events| - 1]);
      match events[|events| - 1].event
      case Heard => true
      case Check => if before then false else before
  }

  /** The check at index i raises DisconnectedByClientEvent. */
  predicate Reports(events: seq<Timed>, i: nat)
    requires i < |events|
  {
    events[i].event.Check? && !Flag(events[..i])
  }

  ghost predicate SilentBetween(events: seq<Timed>, j: nat, i: nat)
    requires i <= |events|
  {
    forall k :: j < k < i ==> !events[k].event.Heard?
  }

  /**
    A check reports the peer iff there was an earlier check and nothing has been handled since; the start counts
    as heard.
  */
  lemma ReportedIff(events: seq<Timed>, i: nat)
    requires i < |events| && events[i].event.Check?
    ensures Reports(events, i) <==> exists j: nat :: j < i && events[j].event.Check? && SilentBetween(events, j, i)
  {
    if i > 0 {
      assert events[..i][i - 1] == events[i - 1];
      if events[i - 1].event.Check? {
        assert SilentBetween(events, i - 1, i);
      } else {
        forall j: nat | j < i && events[j].event.Check? ensures !SilentBetween(events, j, i) {
          assert events[i - 1].event.Heard?;
        }
      }
    }
  }

  /** A peer is never reported if and only if it is heard between every two checks. */
  lemma NeverReportedIff(events: seq<Timed>)
    ensures (forall i: nat :: i < |events| ==> !Reports(events, i)) <==>
      forall i: nat, j: nat :: i < j < |events| && events[i].event.Check? && events[j].event.Check? ==>
        !SilentBetween(events, i, j)
  {
    hide Flag;
    forall i: nat | i < |events| && events[i].event.Check?
      ensures Reports(events, i) <==> exists j: nat :: j < i && events[j].event.Check? && SilentBetween(events, j, i)
    {
      ReportedIff(events, i);
    }
  }

  lemma FlagNext(events: seq<Timed>, n: nat)
    requires n < |events|
    ensures Flag(events[..n + 1]) == events[n].event.Heard?
  {
    assert events[..n + 1][n] == events[n];
  }

  lemma NothingYet(events: seq<Timed>)
    ensures Flag(events[..0])
  {
  }

  /**
    A session whose handler and timer produce this history has exactly this flag and these reports.  A
    heard event is a message whose handling does not throw.
  */
  method Watch(session: RtspSession, events: seq<Timed>, messages: seq<string>) returns (reported: seq<bool>)
    requires session.isAlive && |messages| == |events|
    requires forall i :: 0 <= i < |events| && events[i].event.Heard? ==>
      !Dispatch(Parse(messages[i]), session.hasRequestHandler).Throw?
    modifies session
    ensures session.isAlive == Flag(events)
    ensures |reported| == |events| && forall i :: 0 <= i < |events| ==> reported[i] == Reports(events, i)
  {
    hide Dispatch, Parse, Flag, AnswerTo;
    reported := [];
    NothingYet(events);
    var n := 0;
    while n < |events|
      invariant n <= |events| && session.isAlive == Flag(events[..n])
      invariant |reported| == n && forall i :: 0 <= i < n ==> reported[i] == Reports(events, i)
    {
      FlagNext(events, n);
      var report := false;
      if events[n].event.Heard? {
        var unset: int := *;
        var threw := session.HandleMessage(messages[n], unset);
      } else {
        report := session.CheckAlive();
      }
      reported := reported + [report];
      n := n + 1;
    }
    assert events[..n] == events;
  }

  /**
    Events in order of time; `checks` lists the checks, which come at every multiple of the period and at no
    other time.
  */
  ghost predicate Timeline(events: seq<Timed>, checks: seq<nat>) {
    && (forall i, j :: 0 <= i < j < |events| ==> events[i].at <= events[j].at)
    && (forall i: nat :: i < |events| && events[i].event.Check? ==> i in checks)
    && (forall n :: 0 <= n < |checks| ==>
          checks[n] < |events| && events[checks[n]].event.Check? && events[checks[n]].at == (n + 1) * PERIOD)
  }

  /** A report is never wrong: nothing was handled during the whole period that ends with it. */
  lemma ReportMeansSilence(events: seq<Timed>, checks: seq<nat>, i: nat, k: nat)
    requires Timeline(events, checks) && i < |events| && Reports(events, i)
    requires k < i && events[k].event.Heard?
    ensures events[k].at <= events[i].at - 10000
  {
    hide Flag;
    ReportedIff(events, i);
    var j: nat :| j < i && events[j].event.Check? && SilentBetween(events, j, i);
    assert k <= j;
    var m :| 0 <= m < |checks| && checks[m] == i;
    var n :| 0 <= n < |checks| && checks[n] == j;
    assert n < m;
  }

  /** A peer last heard at time t is reported by the check that falls between one and two periods after t. */
  lemma SilenceIsReported(events: seq<Timed>, checks: seq<nat>, t: nat, i: nat)
    requires Timeline(events, checks) && i < |events| && events[i].event.Check?
    requires events[i].at == (t / PERIOD + 2) * PERIOD
    requires forall k :: 0 <= k < i && events[k].event.Heard? ==> events[k].at <= t
    ensures Reports(events, i)
    ensures t + 10000 < events[i].at <= t + 20000
  {
    hide Flag;
    var n :| 0 <= n < |checks| && checks[n] == i;
    var j := checks[n - 1];
    assert SilentBetween(events, j, i) by {
      forall k | j < k < i ensures !events[k].event.Heard? {
        assert events[j].at <= events[k].at;
      }
    }
    ReportedIff(events, i);
  }
}
