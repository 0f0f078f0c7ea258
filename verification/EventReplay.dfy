/** Replaying the telemetry log from a checkpoint. */
module EventReplay {
  import opened Wrappers
  import opened Ordering
  import opened Scalars
  import opened Paging

  datatype Event = Event(eventId: string, sequence: int, serialNumber: Option<string>, eventType: string)

  datatype ChangeEvent = ChangeEvent(event: Event, checkpoint: string)

  predicate SequenceLeq(a: Event, b: Event) {
    a.sequence <= b.sequence
  }

  predicate Identified(e: Event) {
    e.serialNumber.Some? && e.serialNumber.value != []
  }

  predicate Holds(events: seq<Event>, eventId: string) {
    exists i :: 0 <= i < |events| && events[i].eventId == eventId
  }

  // First delivery of every identified event.
  function Deduplicated(events: seq<Event>): seq<Event> {
    if events == [] then []
    else
      var last := events[|events| - 1];
      var before := Deduplicated(events[..|events| - 1]);
      if Holds(before, last.eventId) || !Identified(last) then before else before + [last]
  }

  ghost predicate IsStream(raw: seq<Event>, stream: seq<Event>) {
    TotalPreorder(SequenceLeq) && stream == Deduplicated(Sort(raw, SequenceLeq))
  }

  // Events after a position, in order.
  function Beyond(stream: seq<Event>, position: int): seq<Event> {
    if stream == [] then []
    else (if stream[0].sequence <= position then [] else [stream[0]]) + Beyond(stream[1..], position)
  }

  function Announced(events: seq<Event>): seq<ChangeEvent> {
    seq(|events|, i requires 0 <= i < |events| => ChangeEvent(events[i], IntText(events[i].sequence)))
  }

  // int(checkpoint or 0); None where it raises.
  function PositionOf(checkpoint: Option<string>): Option<int> {
    if checkpoint.None? || checkpoint.value == "" then Some(0) else ParseInt(checkpoint.value)
  }

  class EventConnector {
    const rawEvents: seq<Event>

    constructor (rawEvents: seq<Event>)
      ensures this.rawEvents == rawEvents
    {
      this.rawEvents := rawEvents;
    }

    method LogicalEvents() returns (events: seq<Event>)
      ensures IsStream(rawEvents, events)
    {
      var seen: set<string> := {};
      events := [];
      var ordered := Sort(rawEvents, SequenceLeq);
      for i := 0 to |ordered|
        invariant events == Deduplicated(ordered[..i])
        invariant forall id :: id in seen <==> Holds(events, id)
      {
        assert ordered[..i + 1][..i] == ordered[..i];
        var event := ordered[i];
        if event.eventId in seen || !Identified(event) {
          continue;
        }
        ghost var before := events;
        seen := seen + {event.eventId};
        events := events + [event];
        HoldsMore(before, event);
      }
      assert ordered[..|ordered|] == ordered;
    }

    /** subscribe(): everything after the checkpoint, each with the checkpoint to resume from. */
    method Subscribe(checkpoint: Option<string>) returns (r: Option<seq<ChangeEvent>>)
      ensures r.None? <==> PositionOf(checkpoint).None?
      ensures r.Some? ==> exists stream ::
        IsStream(rawEvents, stream) && r.value == Announced(Beyond(stream, PositionOf(checkpoint).value))
    {
      hide IsStream, ParseInt;
      var position := PositionOf(checkpoint);
      if position.None? {
        return None;
      }
      var stream := LogicalEvents();
      var out: seq<ChangeEvent> := [];
      for i := 0 to |stream|
        invariant out == Announced(Beyond(stream[..i], position.value))
      {
        BeyondExtends(stream[..i], stream[i], position.value);
        assert stream[..i + 1] == stream[..i] + [stream[i]];
        if stream[i].sequence <= position.value {
          continue;
        }
        out := out + [ChangeEvent(stream[i], IntText(stream[i].sequence))];
      }
      assert stream[..|stream|] == stream;
      return Some(out);
    }
  }

  lemma HoldsMore(events: seq<Event>, event: Event)
    ensures forall id :: Holds(events + [event], id) <==> Holds(events, id) || id == event.eventId
  {
    forall id ensures Holds(events + [event], id) <==> Holds(events, id) || id == event.eventId {
      var all := events + [event];
      assert all[|events|] == event;
      if Holds(events, id) {
        var i :| 0 <= i < |events| && events[i].eventId == id;
        assert all[i] == events[i];
      }
    }
  }

  lemma {:induction false} BeyondExtends(stream: seq<Event>, event: Event, position: int)
    ensures Beyond(stream + [event], position) == Beyond(stream, position) + if event.sequence <= position then [] else [event]
  {
    if stream == [] {
      assert stream + [event] == [event];
    } else {
      BeyondExtends(stream[1..], event, position);
      assert (stream + [event])[1..] == stream[1..] + [event];
    }
  }

  // --- The stream ---

  lemma {:induction false} DeduplicatedFacts(events: seq<Event>)
    requires SortedBy(events, SequenceLeq)
    ensures var d := Deduplicated(events);
      && SortedBy(d, SequenceLeq)
      && (forall i, j :: 0 <= i < j < |d| ==> d[i].eventId != d[j].eventId)
      && (forall e :: e in d ==> e in events && Identified(e))
      && (forall e :: e in events && Identified(e) ==> Holds(d, e.eventId))
  {
    if events != [] {
      var n := |events| - 1;
      DeduplicatedFacts(events[..n]);
      assert events == events[..n] + [events[n]];
      var before := Deduplicated(events[..n]);
      HoldsMore(before, events[n]);
      forall i | 0 <= i < |before| ensures before[i].sequence <= events[n].sequence {
        assert before[i] in events[..n];
      }
    }
  }

  /** In sequence order, every identified event exactly once. */
  lemma StreamFacts(raw: seq<Event>, stream: seq<Event>)
    requires IsStream(raw, stream)
    ensures SortedBy(stream, SequenceLeq)
    ensures forall i, j :: 0 <= i < j < |stream| ==> stream[i].eventId != stream[j].eventId
    ensures forall e :: e in stream ==> e in raw && e.serialNumber.Some? && e.serialNumber.value != ""
    ensures forall e :: e in raw && e.serialNumber.Some? && e.serialNumber.value != "" ==> exists i :: 0 <= i < |stream| && stream[i].eventId == e.eventId
  {
    var ordered := Sort(raw, SequenceLeq);
    DeduplicatedFacts(ordered);
    forall e ensures e in raw <==> e in ordered {
      assert e in multiset(raw) <==> e in multiset(ordered);
    }
  }

  // How many events at the front lie at or before a position.
  function Upto(stream: seq<Event>, position: int): (m: nat)
    ensures m <= |stream|
  {
    if stream == [] || stream[0].sequence > position then 0 else 1 + Upto(stream[1..], position)
  }

  lemma {:induction false} UptoSplits(stream: seq<Event>, position: int, i: nat)
    requires SortedBy(stream, SequenceLeq) && i < |stream|
    ensures stream[i].sequence <= position <==> i < Upto(stream, position)
  {
    if i > 0 {
      assert SequenceLeq(stream[0], stream[i]);
      UptoSplits(stream[1..], position, i - 1);
    }
  }

  lemma {:induction false} BeyondAll(stream: seq<Event>, position: int)
    requires forall i :: 0 <= i < |stream| ==> stream[i].sequence > position
    ensures Beyond(stream, position) == stream
  {
    if stream != [] { BeyondAll(stream[1..], position); }
  }

  // Beyond a position lies a suffix.
  lemma {:induction false} BeyondIsSuffix(stream: seq<Event>, position: int)
    requires SortedBy(stream, SequenceLeq)
    ensures Beyond(stream, position) == stream[Upto(stream, position)..]
  {
    if stream != [] && stream[0].sequence <= position {
      BeyondIsSuffix(stream[1..], position);
    } else {
      forall i | 0 <= i < |stream| ensures stream[i].sequence > position { UptoSplits(stream, position, i); }
      BeyondAll(stream, position);
    }
  }

  lemma {:induction false} BeyondIsLater(stream: seq<Event>, position: int)
    ensures forall e :: e in Beyond(stream, position) <==> e in stream && e.sequence > position
  {
    if stream != [] { BeyondIsLater(stream[1..], position); }
  }

  /** A position misses nothing exactly if every event lies after it; subscribing without a checkpoint starts at 0. */
  lemma NothingMissed(stream: seq<Event>, position: int)
    ensures Beyond(stream, position) == stream <==> forall i :: 0 <= i < |stream| ==> stream[i].sequence > position
    ensures PositionOf(None) == Some(0) && PositionOf(Some("")) == Some(0)
  {
    if forall i :: 0 <= i < |stream| ==> stream[i].sequence > position {
      BeyondAll(stream, position);
    } else {
      var i :| 0 <= i < |stream| && stream[i].sequence <= position;
      BeyondIsLater(stream, position);
      assert stream[i] in stream && stream[i] !in Beyond(stream, position);
    }
  }

  /** An identified event with sequence 0 is in the stream and in no subscription opened without a checkpoint. */
  lemma ZeroIsNeverAnnounced(event: Event, stream: seq<Event>)
    requires Identified(event) && event.sequence == 0 && IsStream([event], stream)
    ensures stream == [event] && Beyond(stream, PositionOf(None).value) == []
  {
    var sorted := Sort([event], SequenceLeq);
    assert sorted[0] in multiset(sorted);
    assert sorted == [event] && [event][..0] == [];
    assert Deduplicated([]) == [] && !Holds([], event.eventId);
    assert Deduplicated([event]) == [event];
  }

  // The events of a subscription have strictly later sequences one after the other.
  predicate Ascending(subscription: seq<ChangeEvent>) {
    forall i :: 0 < i < |subscription| ==> subscription[i - 1].event.sequence < subscription[i].event.sequence
  }

  /**
   * Reading k events of a subscription, from wherever it began, and resuming from the last one's checkpoint gives that
   * subscription exactly when the next event, if any, has a later sequence.
   */
  lemma ResumeIsSeamless(stream: seq<Event>, from: int, first: seq<ChangeEvent>, k: nat)
    requires SortedBy(stream, SequenceLeq) && first == Announced(Beyond(stream, from)) && 0 < k <= |first|
    ensures PositionOf(Some(first[k - 1].checkpoint)) == Some(first[k - 1].event.sequence)
    ensures first[..k] + Announced(Beyond(stream, first[k - 1].event.sequence)) == first
      <==> (k < |first| ==> first[k].event.sequence > first[k - 1].event.sequence)
  {
    var m, position := Upto(stream, from), first[k - 1].event.sequence;
    var n := Upto(stream, position);
    BeyondIsSuffix(stream, from);
    BeyondIsSuffix(stream, position);
    assert first[k - 1].event == stream[m + k - 1];
    UptoSplits(stream, from, m + k - 1);
    UptoSplits(stream, position, m + k - 1);
    CursorRoundTrip(position);
    if k < |first| { UptoSplits(stream, position, m + k); }
    SuffixRejoins(stream, m, k, n);
  }

  lemma SuffixRejoins(stream: seq<Event>, m: nat, k: nat, n: nat)
    requires m + k <= n <= |stream|
    ensures Announced(stream[m..])[..k] + Announced(stream[n..]) == Announced(stream[m..]) <==> n == m + k
  {
  }

  // What a reader collects who leaves after each of these numbers of events and resumes from the last checkpoint it has.
  function ReadInParts(stream: seq<Event>, from: int, parts: seq<nat>): seq<ChangeEvent>
    decreases |parts|
  {
    var subscription := Announced(Beyond(stream, from));
    if parts == [] then subscription
    else
      var k := if parts[0] < |subscription| then parts[0] else |subscription|;
      if k == 0 then ReadInParts(stream, from, parts[1..])
      else subscription[..k] + ReadInParts(stream, subscription[k - 1].event.sequence, parts[1..])
  }

  lemma AscendingLater(stream: seq<Event>, from: int, k: nat)
    requires SortedBy(stream, SequenceLeq) && 0 < k <= |Beyond(stream, from)| && Ascending(Announced(Beyond(stream, from)))
    ensures Ascending(Announced(Beyond(stream, Beyond(stream, from)[k - 1].sequence)))
  {
    var first := Announced(Beyond(stream, from));
    var rest := Announced(Beyond(stream, first[k - 1].event.sequence));
    ResumeIsSeamless(stream, from, first, k);
    assert rest == first[k..];
  }

  lemma {:induction false} AscendingInParts(stream: seq<Event>, from: int, parts: seq<nat>)
    requires SortedBy(stream, SequenceLeq) && Ascending(Announced(Beyond(stream, from)))
    ensures ReadInParts(stream, from, parts) == Announced(Beyond(stream, from))
    decreases |parts|
  {
    hide Beyond, Announced, Ascending;
    if parts != [] {
      var subscription := Announced(Beyond(stream, from));
      var k := if parts[0] < |subscription| then parts[0] else |subscription|;
      if k == 0 {
        AscendingInParts(stream, from, parts[1..]);
      } else {
        OnwardsFrom(stream, from, k);
        AscendingInParts(stream, subscription[k - 1].event.sequence, parts[1..]);
      }
    }
  }

  lemma OnwardsFrom(stream: seq<Event>, from: int, k: nat)
    requires SortedBy(stream, SequenceLeq) && 0 < k <= |Announced(Beyond(stream, from))| && Ascending(Announced(Beyond(stream, from)))
    ensures var first := Announced(Beyond(stream, from)); var rest := Announced(Beyond(stream, first[k - 1].event.sequence));
      Ascending(rest) && first[..k] + rest == first
  {
    AscendingLater(stream, from, k);
    ResumeIsSeamless(stream, from, Announced(Beyond(stream, from)), k);
  }

  lemma OnePart(stream: seq<Event>, from: int, k: nat)
    requires 0 < k <= |Announced(Beyond(stream, from))|
    ensures var first := Announced(Beyond(stream, from));
      ReadInParts(stream, from, [k]) == first[..k] + Announced(Beyond(stream, first[k - 1].event.sequence))
  {
    hide Beyond, Announced;
    var first := Announced(Beyond(stream, from));
    assert [k][1..] == [];
    assert ReadInParts(stream, first[k - 1].event.sequence, []) == Announced(Beyond(stream, first[k - 1].event.sequence));
  }

  /** However often a subscription is left and resumed, it loses and repeats nothing, exactly if its sequences ascend. */
  lemma PartsMakeTheWhole(stream: seq<Event>, from: int)
    requires SortedBy(stream, SequenceLeq)
    ensures (forall parts :: ReadInParts(stream, from, parts) == Announced(Beyond(stream, from)))
      <==> Ascending(Announced(Beyond(stream, from)))
  {
    hide Beyond, Announced, ReadInParts;
    var first := Announced(Beyond(stream, from));
    if Ascending(first) {
      forall parts ensures ReadInParts(stream, from, parts) == first { AscendingInParts(stream, from, parts); }
    } else {
      var k: nat :| 0 < k < |first| && first[k - 1].event.sequence >= first[k].event.sequence;
      OnePart(stream, from, k);
      ResumeIsSeamless(stream, from, first, k);
    }
  }

  /** With unique sequences every subscription, from any checkpoint, can be left and resumed anywhere and any number of times. */
  lemma UniqueSequencesResume(raw: seq<Event>, stream: seq<Event>, from: int, parts: seq<nat>)
    requires IsStream(raw, stream)
    requires forall d, e :: d in raw && e in raw && d.sequence == e.sequence ==> d == e
    ensures ReadInParts(stream, from, parts) == Announced(Beyond(stream, from))
  {
    StreamFacts(raw, stream);
    UniqueAscends(raw, stream, from);
    AscendingInParts(stream, from, parts);
  }

  lemma UniqueAscends(raw: seq<Event>, stream: seq<Event>, from: int)
    requires SortedBy(stream, SequenceLeq) && (forall e :: e in stream ==> e in raw)
    requires forall i, j :: 0 <= i < j < |stream| ==> stream[i].eventId != stream[j].eventId
    requires forall d, e :: d in raw && e in raw && d.sequence == e.sequence ==> d == e
    ensures Ascending(Announced(Beyond(stream, from)))
  {
    var m, first := Upto(stream, from), Announced(Beyond(stream, from));
    BeyondIsSuffix(stream, from);
    forall i | 0 < i < |first| ensures first[i - 1].event.sequence < first[i].event.sequence {
      assert first[i - 1].event == stream[m + i - 1] && first[i].event == stream[m + i];
      assert SequenceLeq(stream[m + i - 1], stream[m + i]) && stream[m + i - 1] in raw && stream[m + i] in raw;
      assert stream[m + i - 1].eventId != stream[m + i].eventId;
    }
  }
}
