/** Chat sessionizer of the analytics page (pages/AnalyticsPage.tsx, `chatSessions`):
    messages are put in chronological order and cut wherever two neighbours are at
    least an hour apart; the sessions are listed newest first. */
module ChatSessionizer {
  import opened Wrappers
  import opened Types
  import opened Sorting

  /** Neighbouring messages closer than this (60 minutes, in ms) share a session. */
  const SessionGapMs: int := 60 * 60 * 1000

  function Last<T>(s: seq<T>): T
    requires |s| > 0
  {
    s[|s| - 1]
  }

  function Flatten<T>(ss: seq<seq<T>>): seq<T>
  {
    if ss == [] then [] else Flatten(ss[..|ss| - 1]) + ss[|ss| - 1]
  }

  function MessageTime(m: ChatMessage): ExtInt
  {
    Fin(m.timestamp)
  }

  /** A session's sort key: the timestamp of its last message. */
  function LastMessageTime(session: seq<ChatMessage>): ExtInt
  {
    if session == [] then NegInf else Fin(Last(session).timestamp)
  }

  /** `[...chatHistory].sort((a, b) => a.timestamp - b.timestamp)`. */
  function Chronological(history: seq<ChatMessage>): seq<ChatMessage>
  {
    SortBy(history, MessageTime)
  }

  /** The sessions of a chronologically ordered message list, oldest first: a message
      joins the current session when it follows the previous one by less than an hour. */
  function Segment(s: seq<ChatMessage>): (r: seq<seq<ChatMessage>>)
    ensures |r| == 0 <==> |s| == 0
    decreases |s|
  {
    if |s| == 0 then []
    else if |s| == 1 then [[s[0]]]
    else
      var rest := Segment(s[..|s| - 1]);
      var m := s[|s| - 1];
      if m.timestamp - s[|s| - 2].timestamp < SessionGapMs
      then rest[..|rest| - 1] + [Last(rest) + [m]]
      else rest + [[m]]
  }

  /** Every session is non-empty, and the last session ends with the last message. */
  lemma {:induction false} SegmentShape(s: seq<ChatMessage>)
    ensures forall i :: 0 <= i < |Segment(s)| ==> |Segment(s)[i]| > 0
    ensures |s| > 0 ==> Last(Last(Segment(s))) == Last(s)
    decreases |s|
  {
    if |s| > 1 {
      var p := s[..|s| - 1];
      SegmentShape(p);
      var rest: seq<seq<ChatMessage>> := Segment(p);
      var r: seq<seq<ChatMessage>> := Segment(s);
      forall i | 0 <= i < |r| ensures |r[i]| > 0 {
        if i < |rest| { assert r[i] == rest[i] || r[i] == rest[i] + [Last(s)]; }
      }
    }
  }

  /** Concatenated in order, the sessions give back the message list. */
  lemma {:induction false} SegmentFlatten(s: seq<ChatMessage>)
    ensures Flatten(Segment(s)) == s
    decreases |s|
  {
    if |s| == 1 {
      assert Flatten([[s[0]]]) == Flatten([]) + [s[0]];
    } else if |s| > 1 {
      var p := s[..|s| - 1];
      SegmentFlatten(p);
      var rest: seq<seq<ChatMessage>> := Segment(p);
      var r: seq<seq<ChatMessage>> := Segment(s);
      var m := s[|s| - 1];
      assert s == p + [m];
      var front := rest[..|rest| - 1];
      assert Flatten(rest) == Flatten(front) + Last(rest);
      if m.timestamp - s[|s| - 2].timestamp < SessionGapMs {
        assert r == front + [Last(rest) + [m]];
        assert r[..|r| - 1] == front;
        calc {
          Flatten(r);
          Flatten(front) + (Last(rest) + [m]);
          (Flatten(front) + Last(rest)) + [m];
        }
      } else {
        assert r[..|r| - 1] == rest;
      }
    }
  }

  /** The value `chatSessions` computes: the sessions, newest last message first. */
  function Sessions(history: seq<ChatMessage>): seq<seq<ChatMessage>>
  {
    SortDescBy(Segment(Chronological(history)), LastMessageTime)
  }

  /** Inside a session, each message follows the previous one by less than an hour. */
  lemma {:induction false} SegmentGapsWithin(s: seq<ChatMessage>)
    ensures forall i, j :: 0 <= i < |Segment(s)| && 0 < j < |Segment(s)[i]| ==>
              Segment(s)[i][j].timestamp - Segment(s)[i][j - 1].timestamp < SessionGapMs
    decreases |s|
  {
    if |s| > 1 {
      var p := s[..|s| - 1];
      SegmentGapsWithin(p);
      var rest: seq<seq<ChatMessage>> := Segment(p);
      var r: seq<seq<ChatMessage>> := Segment(s);
      var m := s[|s| - 1];
      assert Last(p) == s[|s| - 2];
      if m.timestamp - s[|s| - 2].timestamp < SessionGapMs {
        forall i, j | 0 <= i < |r| && 0 < j < |r[i]|
          ensures r[i][j].timestamp - r[i][j - 1].timestamp < SessionGapMs
        {
          if i < |r| - 1 {
            assert r[i] == rest[i];
          } else if j < |r[i]| - 1 {
            assert r[i][j] == rest[i][j] && r[i][j - 1] == rest[i][j - 1];
          }
        }
      } else {
        forall i, j | 0 <= i < |r| && 0 < j < |r[i]|
          ensures r[i][j].timestamp - r[i][j - 1].timestamp < SessionGapMs
        {
          assert r[i] == rest[i];
        }
      }
    }
  }

  predicate NonEmptySessions(r: seq<seq<ChatMessage>>)
  {
    forall i :: 0 <= i < |r| ==> |r[i]| > 0
  }

  /** Consecutive sessions are at least an hour apart: a gap of an hour or more always
      starts a new session. */
  lemma {:induction false} SegmentGapsBetween(s: seq<ChatMessage>)
    ensures NonEmptySessions(Segment(s))
    ensures forall i :: 0 < i < |Segment(s)| ==>
              Segment(s)[i][0].timestamp - Last(Segment(s)[i - 1]).timestamp >= SessionGapMs
    decreases |s|
  {
    SegmentShape(s);
    if |s| > 1 {
      var p := s[..|s| - 1];
      SegmentGapsBetween(p);
      var rest: seq<seq<ChatMessage>> := Segment(p);
      var r: seq<seq<ChatMessage>> := Segment(s);
      var m := s[|s| - 1];
      assert Last(p) == s[|s| - 2];
      if m.timestamp - s[|s| - 2].timestamp < SessionGapMs {
        forall i | 0 < i < |r|
          ensures r[i][0].timestamp - Last(r[i - 1]).timestamp >= SessionGapMs
        {
          assert r[i - 1] == rest[i - 1];
          assert r[i][0] == rest[i][0];
        }
      } else {
        forall i | 0 < i < |r|
          ensures r[i][0].timestamp - Last(r[i - 1]).timestamp >= SessionGapMs
        {
          if i < |r| - 1 {
            assert r[i] == rest[i] && r[i - 1] == rest[i - 1];
          }
        }
      }
    }
  }

  /** For chronologically ordered input, the sessions' last messages strictly increase. */
  lemma {:induction false} SegmentLastTimesIncrease(s: seq<ChatMessage>)
    requires SortedBy(s, MessageTime)
    ensures forall i, j :: 0 <= i < j < |Segment(s)| ==>
              !ExtLe(LastMessageTime(Segment(s)[j]), LastMessageTime(Segment(s)[i]))
    decreases |s|
  {
    SegmentShape(s);
    if |s| > 1 {
      var p := s[..|s| - 1];
      assert SortedBy(p, MessageTime);
      SegmentLastTimesIncrease(p);
      SegmentShape(p);
      var rest: seq<seq<ChatMessage>> := Segment(p);
      var r: seq<seq<ChatMessage>> := Segment(s);
      var m := s[|s| - 1];
      assert Last(p) == s[|s| - 2];
      assert ExtLe(MessageTime(s[|s| - 2]), MessageTime(m));
      forall i, j | 0 <= i < j < |r|
        ensures !ExtLe(LastMessageTime(r[j]), LastMessageTime(r[i]))
      {
        assert r[i] == rest[i];
        if j < |r| - 1 {
          assert r[j] == rest[j];
        } else if j < |rest| {
          assert Last(r[j]) == m;
        }
      }
    }
  }

  /** Because sessions are cut in time order, listing them newest first is exactly
      reversing the oldest-first list. */
  lemma SessionsAreReversedSegments(history: seq<ChatMessage>)
    ensures Sessions(history) == Reverse(Segment(Chronological(history)))
  {
    var s := Chronological(history);
    SegmentLastTimesIncrease(s);
    SortDescByStrictlyIncreasing(Segment(s), LastMessageTime);
  }

  lemma {:induction false} FlattenReverseReverse<T>(ss: seq<seq<T>>)
    ensures Flatten(Reverse(Reverse(ss))) == Flatten(ss)
  {
    var rr := Reverse(Reverse(ss));
    assert rr == ss;
  }

  /** Read oldest first, the sessions are exactly the history in stable timestamp order:
      no message is lost, duplicated or added, and every session is non-empty. */
  lemma SessionsPartitionHistory(history: seq<ChatMessage>)
    ensures Flatten(Reverse(Sessions(history))) == SortBy(history, MessageTime)
    ensures multiset(Flatten(Reverse(Sessions(history)))) == multiset(history)
    ensures NonEmptySessions(Sessions(history))
    ensures |Sessions(history)| == 0 <==> |history| == 0
  {
    var r := Segment(Chronological(history));
    var out := Sessions(history);
    SessionsAreReversedSegments(history);
    SegmentFlatten(Chronological(history));
    FlattenReverseReverse(r);
    SegmentShape(Chronological(history));
    forall i | 0 <= i < |out| ensures |out[i]| > 0 {
      assert out[i] in multiset(out);
      assert out[i] in r;
    }
  }

  /** How one more message extends the sessions. */
  lemma SegmentSnoc(s: seq<ChatMessage>, m: ChatMessage)
    requires |s| > 0
    ensures Segment(s + [m]) ==
              if m.timestamp - Last(s).timestamp < SessionGapMs
              then Segment(s)[..|Segment(s)| - 1] + [Last(Segment(s)) + [m]]
              else Segment(s) + [[m]]
  {
    var t := s + [m];
    assert t[..|t| - 1] == s;
  }

  /** `chatSessions`: sort, then cut the sorted list into sessions with a running buffer. */
  method ChatSessions(history: seq<ChatMessage>) returns (sessions: seq<seq<ChatMessage>>)
    ensures sessions == Sessions(history)
    ensures sessions == Reverse(Segment(Chronological(history)))
    ensures SortedDescBy(sessions, LastMessageTime)
  {
    SessionsAreReversedSegments(history);
    if |history| == 0 {
      return [];
    }
    var sorted := Chronological(history);
    var closed := CutSessions(sorted);
    sessions := SortDescBy(closed, LastMessageTime);
  }

  /** The `forEach` over the sorted messages: a running buffer `current` takes each message
      less than an hour after its predecessor; otherwise it is closed and a new one opened. */
  method CutSessions(sorted: seq<ChatMessage>) returns (segments: seq<seq<ChatMessage>>)
    ensures segments == Segment(sorted)
  {
    if |sorted| == 0 {
      return [];
    }
    var closed: seq<seq<ChatMessage>> := [];
    var current: seq<ChatMessage> := [sorted[0]];
    assert sorted[..1] == [sorted[0]];
    var index := 1;
    while index < |sorted|
      invariant 1 <= index <= |sorted|
      invariant closed + [current] == Segment(sorted[..index])
    {
      var msg := sorted[index];
      var prevMsg := sorted[index - 1];
      var before := sorted[..index];
      assert sorted[..index + 1] == before + [msg];
      assert Last(before) == prevMsg;
      SegmentSnoc(before, msg);
      var segs := Segment(before);
      assert segs[..|segs| - 1] == closed && Last(segs) == current;
      if msg.timestamp - prevMsg.timestamp < SessionGapMs {
        current := current + [msg];
      } else {
        closed := closed + [current];
        current := [msg];
      }
      index := index + 1;
    }
    assert sorted[..|sorted|] == sorted;
    segments := closed + [current];
  }

  /** The worked example: messages at 0 ms and 1000 ms share a session, the one at
      4,000,000 ms starts another, and the later session is listed first. */
  lemma ExampleSegments(h: seq<ChatMessage>)
    requires |h| == 3
    requires h[0].timestamp == 0 && h[1].timestamp == 1000 && h[2].timestamp == 4000000
    ensures Segment(h) == [h[..2], [h[2]]]
  {
    var first := h[..2];
    assert Segment(first) == [first] by {
      assert Segment([first[0]]) == [[first[0]]];
      SegmentSnoc([first[0]], first[1]);
      assert [first[0]] + [first[1]] == first;
    }
    SegmentSnoc(first, h[2]);
    assert h == first + [h[2]];
  }

  lemma ExampleChronological(h: seq<ChatMessage>)
    requires |h| == 3
    requires h[0].timestamp == 0 && h[1].timestamp == 1000 && h[2].timestamp == 4000000
    ensures Chronological(h) == h
  {
    SortBySorted(h, MessageTime);
  }

  /** The worked example: messages at 0 ms and 1000 ms share a session, the one at
      4,000,000 ms starts another, and the later session is listed first. */
  lemma WorkedExample(h: seq<ChatMessage>)
    requires |h| == 3
    requires h[0].timestamp == 0 && h[1].timestamp == 1000 && h[2].timestamp == 4000000
    ensures Sessions(h) == [[h[2]], h[..2]]
  {
    ExampleChronological(h);
    ExampleSegments(h);
    SessionsAreReversedSegments(h);
  }
}
