/** The burst window of internal/proxy/detect.go: which connections of one host count as the
    last ten seconds, kept by cutting off a sorted list where a binary search says. */
module Bursts {
  import opened Streams

  /** Ten seconds, in nanoseconds. */
  const SPAN := 10 * 1000 * 1000 * 1000

  predicate Sorted(times: seq<int>) {
    forall i, j | 0 <= i < j < |times| :: times[i] <= times[j]
  }

  /** The first index whose time is not before the cutoff, found as sort.Search finds it. */
  method Search(times: seq<int>, cutoff: int) returns (first: nat)
    requires Sorted(times)
    ensures first <= |times|
    ensures forall i | 0 <= i < first :: times[i] < cutoff
    ensures forall i | first <= i < |times| :: times[i] >= cutoff
  {
    var low, high := 0, |times|;
    while low < high
      invariant low <= high <= |times|
      invariant forall i | 0 <= i < low :: times[i] < cutoff
      invariant forall i | high <= i < |times| :: times[i] >= cutoff
    {
      var middle := (low + high) / 2;
      if times[middle] < cutoff {
        low := middle + 1;
      } else {
        high := middle;
      }
    }
    first := low;
  }

  /** The times that are not before the cutoff, whatever their order. */
  function Since(times: seq<int>, cutoff: int): seq<int> {
    if times == [] then []
    else
      var front, last := times[..|times| - 1], times[|times| - 1];
      if last >= cutoff then Since(front, cutoff) + [last] else Since(front, cutoff)
  }

  lemma {:induction false} SinceNone(times: seq<int>, cutoff: int)
    requires forall i | 0 <= i < |times| :: times[i] < cutoff
    ensures Since(times, cutoff) == []
  {
    if times != [] { SinceNone(times[..|times| - 1], cutoff); }
  }

  /** On a sorted list the cut is the filter. */
  lemma {:induction false} CutIsFilter(times: seq<int>, cutoff: int, first: nat)
    requires first <= |times|
    requires forall i | 0 <= i < first :: times[i] < cutoff
    requires forall i | first <= i < |times| :: times[i] >= cutoff
    ensures times[first..] == Since(times, cutoff)
  {
    if first == |times| {
      SinceNone(times, cutoff);
    } else {
      var front := times[..|times| - 1];
      CutIsFilter(front, cutoff, first);
      assert times[first..] == front[first..] + [times[|times| - 1]];
    }
  }

  lemma {:induction false} SinceTwice(times: seq<int>, early: int, late: int)
    requires early <= late
    ensures Since(Since(times, early), late) == Since(times, late)
  {
    if times == [] {
    } else {
      var front, last := times[..|times| - 1], times[|times| - 1];
      SinceTwice(front, early, late);
      if last >= early { SinceSnoc(Since(front, early), last, late); }
    }
  }

  lemma SinceSnoc(times: seq<int>, t: int, cutoff: int)
    ensures Since(times + [t], cutoff) == if t >= cutoff then Since(times, cutoff) + [t] else Since(times, cutoff)
  {
    assert (times + [t])[..|times|] == times;
  }

  lemma SortedSnoc(times: seq<int>, t: int)
    requires Sorted(times) && forall x | x in times :: x <= t
    ensures Sorted(times + [t])
  {
    forall i | 0 <= i < |times| ensures times[i] <= t {
      assert times[i] in times;
    }
  }

  lemma {:induction false} SinceSorted(times: seq<int>, cutoff: int)
    requires Sorted(times)
    ensures Sorted(Since(times, cutoff)) && |Since(times, cutoff)| <= |times|
    ensures forall t | t in Since(times, cutoff) :: t in times
  {
    if times == [] {
    } else {
      var front := times[..|times| - 1];
      SinceSorted(front, cutoff);
      assert forall t | t in front :: t <= times[|times| - 1];
      SortedSnoc(Since(front, cutoff), times[|times| - 1]);
    }
  }

  // ----- one host, over time -------------------------------------------------------------

  /** A counted connection, or a tick of the clean-up. */
  datatype Event = Connection(at: int) | CleanUp(at: int)

  function Step(window: seq<int>, e: Event): seq<int> {
    match e
    case Connection(at) => Since(window, at - SPAN) + [at]
    case CleanUp(at) => Since(window, at - SPAN)
  }

  function WindowAfter(events: seq<Event>): seq<int> {
    if events == [] then [] else Step(WindowAfter(events[..|events| - 1]), events[|events| - 1])
  }

  /** Every counted connection. */
  function History(events: seq<Event>): seq<int> {
    if events == [] then []
    else
      var front, last := History(events[..|events| - 1]), events[|events| - 1];
      if last.Connection? then front + [last.at] else front
  }

  /** The latest time of any event, which is the latest cutoff. */
  function Latest(events: seq<Event>): int
    requires events != []
  {
    if |events| == 1 then events[0].at
    else
      var before, last := Latest(events[..|events| - 1]), events[|events| - 1].at;
      if before <= last then last else before
  }

  /** A connection is never earlier than anything before it. A tick of the clean-up may be: its
      time was taken when it fell due, not when it is handled. */
  predicate ClockOk(events: seq<Event>) {
    events == []
    || (var front, last := events[..|events| - 1], events[|events| - 1];
        ClockOk(front) && (last.Connection? && front != [] ==> Latest(front) <= last.at))
  }

  lemma {:induction false} HistorySorted(events: seq<Event>)
    requires ClockOk(events)
    ensures Sorted(History(events))
    ensures events != [] ==> forall t | t in History(events) :: t <= Latest(events)
  {
    if events == [] {
    } else {
      var front, last := events[..|events| - 1], events[|events| - 1];
      HistorySorted(front);
      assert front != [] ==> Latest(front) <= Latest(events);
      assert front == [] ==> History(front) == [];
      if last.Connection? {
        SortedSnoc(History(front), last.at);
      }
    }
  }

  /** Cutting at an earlier time than before changes nothing. */
  lemma {:induction false} SinceAgain(times: seq<int>, early: int, late: int)
    requires early <= late
    ensures Since(Since(times, late), early) == Since(times, late)
  {
    if times == [] {
    } else {
      var front, last := times[..|times| - 1], times[|times| - 1];
      SinceAgain(front, early, late);
      if last >= late {
        SinceSnoc(Since(front, late), last, early);
      }
    }
  }

  /** One more event after the latest time so far. */
  lemma StepIsSince(history: seq<int>, latest: int, e: Event)
    requires e.Connection? ==> latest <= e.at
    ensures var now := if latest <= e.at then e.at else latest;
            Step(Since(history, latest - SPAN), e)
            == Since(if e.Connection? then history + [e.at] else history, now - SPAN)
  {
    if latest <= e.at {
      SinceTwice(history, latest - SPAN, e.at - SPAN);
    } else {
      SinceAgain(history, e.at - SPAN, latest - SPAN);
    }
    SinceSnoc(history, e.at, e.at - SPAN);
  }

  lemma FirstEvent(events: seq<Event>)
    requires |events| == 1
    ensures WindowAfter(events) == Since(History(events), events[0].at - SPAN)
  {
    assert events[..0] == [];
    SinceSnoc([], events[0].at, events[0].at - SPAN);
    assert [] + [events[0].at] == [events[0].at];
  }

  /** The pruned list is after every event exactly the part of the whole counted history that lies
      within ten seconds of the latest event, however many clean-ups came in between and however
      late they were handled; so twenty entries mean twenty connections within ten seconds. */
  lemma {:induction false} WindowIsRecentHistory(events: seq<Event>)
    requires ClockOk(events) && events != []
    ensures WindowAfter(events) == Since(History(events), Latest(events) - 10_000_000_000)
    ensures Sorted(WindowAfter(events)) && forall t | t in WindowAfter(events) :: t <= Latest(events)
  {
    hide Since, Sorted, Step;
    if |events| == 1 {
      FirstEvent(events);
    } else {
      var front, last := events[..|events| - 1], events[|events| - 1];
      WindowIsRecentHistory(front);
      StepIsSince(History(front), Latest(front), last);
    }
    HistorySorted(events);
    SinceSorted(History(events), Latest(events) - SPAN);
  }
}
