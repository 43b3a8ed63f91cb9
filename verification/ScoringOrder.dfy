/** Sorting, filtering and windowing: what the order of the input can and cannot change. */
module ScoringOrder {
  import opened Common
  import opened Scoring

  ghost predicate Sorted(s: seq<Event>) {
    forall i, j :: 0 <= i < j < |s| ==> s[i].timestamp <= s[j].timestamp
  }

  ghost predicate StrictlySorted(s: seq<Event>) {
    forall i, j :: 0 <= i < j < |s| ==> s[i].timestamp < s[j].timestamp
  }

  ghost predicate DistinctTimes(s: seq<Event>) {
    forall i, j :: 0 <= i < j < |s| ==> s[i].timestamp != s[j].timestamp
  }

  // ---- The sort ----

  lemma SortedCons(x: Event, e: Event, rest: seq<Event>, inserted: seq<Event>)
    requires Sorted(inserted) && multiset(inserted) == multiset(rest) + multiset{e}
    requires x.timestamp < e.timestamp && forall f :: f in rest ==> x.timestamp <= f.timestamp
    ensures Sorted([x] + inserted)
  {
    forall k | 0 <= k < |inserted| ensures x.timestamp <= inserted[k].timestamp {
      assert inserted[k] in multiset(inserted);
      assert inserted[k] == e || inserted[k] in rest;
    }
  }

  lemma {:induction false} InsertSorts(e: Event, s: seq<Event>)
    requires Sorted(s)
    ensures Sorted(InsertByTime(e, s))
    ensures multiset(InsertByTime(e, s)) == multiset(s) + multiset{e}
    ensures |InsertByTime(e, s)| == |s| + 1
  {
    if s != [] && s[0].timestamp < e.timestamp {
      var x, rest := s[0], s[1..];
      assert s == [x] + rest;
      InsertSorts(e, rest);
      SortedCons(x, e, rest, InsertByTime(e, rest));
    } else {
      assert InsertByTime(e, s) == [e] + s;
    }
  }

  /** The result is the input rearranged into time order. */
  lemma {:induction false} SortSorts(events: seq<Event>)
    ensures Sorted(SortByTime(events))
    ensures multiset(SortByTime(events)) == multiset(events)
    ensures |SortByTime(events)| == |events|
  {
    if events != [] {
      var x, rest := events[0], events[1..];
      assert events == [x] + rest;
      SortSorts(rest);
      InsertSorts(x, SortByTime(rest));
    }
    hide Sorted, InsertByTime;
  }

  lemma KeepCons(p: Event -> bool, e: Event, s: seq<Event>)
    ensures Keep(p, [e] + s) == if p(e) then [e] + Keep(p, s) else Keep(p, s)
  {
    assert ([e] + s)[1..] == s;
  }

  lemma SortCons(e: Event, s: seq<Event>)
    ensures SortByTime([e] + s) == InsertByTime(e, SortByTime(s))
  {
    assert ([e] + s)[1..] == s;
  }

  lemma {:induction false} KeepMembers(p: Event -> bool, s: seq<Event>)
    ensures forall e :: e in Keep(p, s) <==> e in s && p(e)
    ensures |Keep(p, s)| <= |s|
  {
    if s != [] {
      KeepMembers(p, s[1..]);
      assert s == [s[0]] + s[1..];
    }
  }

  lemma {:induction false} KeepSorted(p: Event -> bool, s: seq<Event>)
    requires Sorted(s)
    ensures Sorted(Keep(p, s))
  {
    if s != [] {
      KeepSorted(p, s[1..]);
      KeepMembers(p, s[1..]);
      assert s == [s[0]] + s[1..];
      forall e | e in s[1..] ensures s[0].timestamp <= e.timestamp {}
    }
  }

  lemma {:induction false} InsertLow(e: Event, s: seq<Event>)
    requires forall f :: f in s ==> e.timestamp <= f.timestamp
    ensures InsertByTime(e, s) == [e] + s
  {
    if s != [] {
      assert s[0] in s;
    }
  }

  lemma InsertCons(e: Event, x: Event, s: seq<Event>)
    requires x.timestamp < e.timestamp
    ensures InsertByTime(e, [x] + s) == [x] + InsertByTime(e, s)
  {
    assert ([x] + s)[1..] == s;
  }

  lemma {:induction false} InsertKeep(p: Event -> bool, e: Event, s: seq<Event>)
    requires Sorted(s)
    ensures Keep(p, InsertByTime(e, s)) == if p(e) then InsertByTime(e, Keep(p, s)) else Keep(p, s)
  {
    if s == [] || e.timestamp <= s[0].timestamp {
      KeepCons(p, e, s);
      KeepMembers(p, s);
      forall f | f in Keep(p, s) ensures e.timestamp <= f.timestamp {
        assert f in s;
      }
      InsertLow(e, Keep(p, s));
    } else {
      var x, rest := s[0], s[1..];
      assert s == [x] + rest;
      InsertKeep(p, e, rest);
      KeepCons(p, x, rest);
      KeepCons(p, x, InsertByTime(e, rest));
      hide Keep;
      InsertCons(e, x, Keep(p, rest));
    }
  }

  /** The sort is stable: filtering before it or after it is the same. */
  lemma {:induction false} SortKeep(p: Event -> bool, events: seq<Event>)
    ensures Keep(p, SortByTime(events)) == SortByTime(Keep(p, events))
  {
    if events != [] {
      var x, rest := events[0], events[1..];
      assert events == [x] + rest;
      SortKeep(p, rest);
      SortSorts(rest);
      InsertKeep(p, x, SortByTime(rest));
      SortCons(x, rest);
      KeepCons(p, x, rest);
      SortCons(x, Keep(p, rest));
      hide Keep, SortByTime, InsertByTime;
    }
  }

  lemma {:induction false} SortIdempotent(s: seq<Event>)
    requires Sorted(s)
    ensures SortByTime(s) == s
  {
    if s != [] {
      SortIdempotent(s[1..]);
      forall f | f in s[1..] ensures s[0].timestamp <= f.timestamp {}
      InsertLow(s[0], s[1..]);
    }
  }

  lemma {:induction false} KeepKeep(p: Event -> bool, q: Event -> bool, s: seq<Event>)
    ensures Keep(p, Keep(q, s)) == Keep(q, Keep(p, s))
  {
    if s != [] {
      var x, rest := s[0], s[1..];
      assert s == [x] + rest;
      KeepKeep(p, q, rest);
      KeepCons(p, x, rest);
      KeepCons(q, x, rest);
      KeepCons(p, x, Keep(q, rest));
      KeepCons(q, x, Keep(p, rest));
      hide Keep;
    }
  }

  lemma {:induction false} KeepAll(p: Event -> bool, s: seq<Event>)
    requires forall e :: e in s ==> p(e)
    ensures Keep(p, s) == s
  {
    if s != [] {
      KeepAll(p, s[1..]);
    }
  }

  lemma {:induction false} KeepPermuted(p: Event -> bool, s: seq<Event>)
    ensures forall e :: multiset(Keep(p, s))[e] == if p(e) then multiset(s)[e] else 0
  {
    if s != [] {
      KeepPermuted(p, s[1..]);
      assert s == [s[0]] + s[1..];
    }
  }

  // ---- Order independence ----

  lemma SizesAgree(a: seq<Event>, b: seq<Event>)
    requires multiset(a) == multiset(b)
    ensures |a| == |b|
  {
    assert |a| == |multiset(a)|;
  }

  lemma HeadsAgree(s: seq<Event>, t: seq<Event>)
    requires StrictlySorted(s) && Sorted(t) && multiset(s) == multiset(t) && s != [] && t != []
    ensures s[0] == t[0]
  {
    assert s[0] in multiset(s) && s[0] in t;
    var j :| 0 <= j < |t| && t[j] == s[0];
    assert t[0] in multiset(t) && t[0] in s;
    var i :| 0 <= i < |s| && s[i] == t[0];
  }

  lemma TailsAgree(s: seq<Event>, t: seq<Event>)
    requires multiset(s) == multiset(t) && s != [] && t != [] && s[0] == t[0]
    ensures multiset(s[1..]) == multiset(t[1..])
  {
    assert s == [s[0]] + s[1..] && t == [t[0]] + t[1..];
    assert multiset(s[1..]) == multiset(s) - multiset{s[0]};
    assert multiset(t[1..]) == multiset(t) - multiset{t[0]};
  }

  lemma {:induction false} StrictOrderUnique(s: seq<Event>, t: seq<Event>)
    requires StrictlySorted(s) && Sorted(t) && multiset(s) == multiset(t)
    ensures s == t
  {
    SizesAgree(s, t);
    if s != [] {
      HeadsAgree(s, t);
      TailsAgree(s, t);
      StrictOrderUnique(s[1..], t[1..]);
      assert s == [s[0]] + s[1..] && t == [t[0]] + t[1..];
    }
  }

  lemma {:induction false} SortStrict(events: seq<Event>)
    requires DistinctTimes(events)
    ensures StrictlySorted(SortByTime(events))
  {
    if events != [] {
      var rest := events[1..];
      assert forall i, j :: 0 <= i < j < |rest| ==> rest[i] == events[i + 1] && rest[j] == events[j + 1];
      SortStrict(rest);
      SortSorts(rest);
      forall f | f in SortByTime(rest) ensures f.timestamp != events[0].timestamp {
        assert f in multiset(SortByTime(rest)) && f in rest;
        var k :| 0 <= k < |rest| && rest[k] == f;
        assert events[k + 1] == f;
      }
      InsertStrict(events[0], SortByTime(rest));
    }
  }

  lemma {:induction false} InsertStrict(e: Event, s: seq<Event>)
    requires StrictlySorted(s) && forall f :: f in s ==> f.timestamp != e.timestamp
    ensures StrictlySorted(InsertByTime(e, s))
  {
    if s != [] {
      var x, rest := s[0], s[1..];
      assert s == [x] + rest && x in s;
      if x.timestamp < e.timestamp {
        InsertStrict(e, rest);
        InsertSorts(e, rest);
        InsertCons(e, x, rest);
        StrictCons(x, e, rest, InsertByTime(e, rest));
      }
    }
    hide Sorted;
  }

  lemma StrictCons(x: Event, e: Event, rest: seq<Event>, inserted: seq<Event>)
    requires StrictlySorted(inserted) && multiset(inserted) == multiset(rest) + multiset{e}
    requires x.timestamp < e.timestamp && forall f :: f in rest ==> x.timestamp < f.timestamp
    ensures StrictlySorted([x] + inserted)
  {
    forall k | 0 <= k < |inserted| ensures x.timestamp < inserted[k].timestamp {
      assert inserted[k] in multiset(inserted);
      assert inserted[k] == e || inserted[k] in rest;
    }
  }

  /** With distinct timestamps the sorted list depends only on which events there are. */
  lemma SortPermuted(a: seq<Event>, b: seq<Event>)
    requires DistinctTimes(a) && multiset(a) == multiset(b)
    ensures SortByTime(a) == SortByTime(b)
  {
    SortStrict(a);
    SortSorts(a);
    SortSorts(b);
    StrictOrderUnique(SortByTime(a), SortByTime(b));
  }

  lemma {:induction false} KeepDistinct(p: Event -> bool, s: seq<Event>)
    requires DistinctTimes(s)
    ensures DistinctTimes(Keep(p, s))
  {
    if s != [] {
      var rest := s[1..];
      assert forall i, j :: 0 <= i < j < |rest| ==> rest[i] == s[i + 1] && rest[j] == s[j + 1];
      KeepDistinct(p, rest);
      KeepMembers(p, rest);
      var kept := Keep(p, rest);
      forall k | 0 <= k < |kept| ensures kept[k].timestamp != s[0].timestamp {
        assert kept[k] in kept && kept[k] in rest;
        var i :| 0 <= i < |rest| && rest[i] == kept[k];
        assert s[i + 1] == kept[k];
      }
    }
  }

  lemma KeepPermutation(p: Event -> bool, a: seq<Event>, b: seq<Event>)
    requires multiset(a) == multiset(b)
    ensures multiset(Keep(p, a)) == multiset(Keep(p, b))
  {
    KeepPermuted(p, a);
    KeepPermuted(p, b);
  }

  lemma InAgePermuted(a: seq<Event>, b: seq<Event>, w: WindowConfig, asOf: real)
    requires DistinctTimes(a) && multiset(a) == multiset(b)
    ensures SortByTime(InAge(a, w, asOf)) == SortByTime(InAge(b, w, asOf))
  {
    hide SortByTime, Keep, DistinctTimes;
    if w.maxAgeHours.None? {
      SortPermuted(a, b);
    } else {
      KeptPermuted((e: Event) => e.timestamp >= asOf - w.maxAgeHours.value, a, b);
    }
  }

  lemma KeptPermuted(p: Event -> bool, a: seq<Event>, b: seq<Event>)
    requires DistinctTimes(a) && multiset(a) == multiset(b)
    ensures SortByTime(Keep(p, a)) == SortByTime(Keep(p, b))
  {
    hide SortByTime, Keep, DistinctTimes;
    KeepDistinct(p, a);
    KeepPermutation(p, a, b);
    SortPermuted(Keep(p, a), Keep(p, b));
  }

  lemma WindowedPermuted(a: seq<Event>, b: seq<Event>, config: ScoringConfig, window: Option<WindowConfig>, now: real,
                         filter: bool)
    requires DistinctTimes(a) && multiset(a) == multiset(b)
    ensures WindowedScore(a, config, window, now, filter) == WindowedScore(b, config, window, now, filter)
  {
    hide ScoreSorted, InAge, SortByTime;
    if window.Some? {
      InAgePermuted(a, b, window.value, now);
    } else {
      SortPermuted(a, b);
      KeepDistinct(Controllable, a);
      KeepPermutation(Controllable, a, b);
      SortPermuted(FilterControllable(a, filter), FilterControllable(b, filter));
      SizesAgree(FilterControllable(a, filter), FilterControllable(b, filter));
    }
  }

  /** With distinct timestamps none of the three scores depends on the order in which the events are listed. */
  lemma OrderIndependence(a: seq<Event>, b: seq<Event>, config: ScoringConfig, window: Option<WindowConfig>, now: real,
                          filter: bool)
    requires DistinctTimes(a) && multiset(a) == multiset(b)
    ensures Score(a, config, now, filter) == Score(b, config, now, filter)
    ensures WindowedScore(a, config, window, now, filter) == WindowedScore(b, config, window, now, filter)
    ensures Replay(a, config, now, window, filter) == Replay(b, config, now, window, filter)
  {
    hide ScoreSorted, WindowedScore;
    SortPermuted(a, b);
    WindowedPermuted(a, b, config, window, now, filter);
    var upTo := (e: Event) => e.timestamp <= now;
    KeepDistinct(upTo, a);
    KeepPermutation(upTo, a, b);
    SortPermuted(Keep(upTo, a), Keep(upTo, b));
    WindowedPermuted(Keep(upTo, a), Keep(upTo, b), config, window, now, filter);
  }

  // ---- What a replay sees ----

  lemma KeepNothing(p: Event -> bool)
    ensures Keep(p, []) == []
  {
  }

  lemma {:induction false} KeepOfConcat(p: Event -> bool, s: seq<Event>, t: seq<Event>)
    ensures Keep(p, s + t) == Keep(p, s) + Keep(p, t)
  {
    hide Keep;
    if s == [] {
      KeepNothing(p);
      assert s + t == t && [] + Keep(p, t) == Keep(p, t);
    } else {
      var x, rest := s[0], s[1..];
      assert s == [x] + rest && s + t == [x] + (rest + t);
      KeepOfConcat(p, rest, t);
      KeepCons(p, x, rest);
      KeepCons(p, x, rest + t);
      assert [x] + (Keep(p, rest) + Keep(p, t)) == [x] + Keep(p, rest) + Keep(p, t);
    }
  }

  /** An event later than the instant replayed to changes nothing, wherever it is listed. */
  lemma ReplayIgnoresLater(xs: seq<Event>, e: Event, ys: seq<Event>, config: ScoringConfig, asOf: real,
                           window: Option<WindowConfig>, filter: bool)
    requires e.timestamp > asOf
    ensures Replay(xs + [e] + ys, config, asOf, window, filter) == Replay(xs + ys, config, asOf, window, filter)
  {
    hide WindowedScore, Score;
    var upTo := (f: Event) => f.timestamp <= asOf;
    KeepOfConcat(upTo, xs + [e], ys);
    KeepOfConcat(upTo, xs, [e]);
    KeepOfConcat(upTo, xs, ys);
    KeepCons(upTo, e, []);
    assert [e] + [] == [e];
    assert Keep(upTo, xs) + [] == Keep(upTo, xs);
  }

  /** With no event later than that instant, a replay is the score of the whole history, within the window when one is
      given. */
  lemma ReplayOfPast(events: seq<Event>, config: ScoringConfig, asOf: real, window: Option<WindowConfig>, filter: bool)
    requires forall e :: e in events ==> e.timestamp <= asOf
    ensures window.Some? ==>
              Replay(events, config, asOf, window, filter) == WindowedScore(events, config, window, asOf, filter)
    ensures window.None? ==> Replay(events, config, asOf, window, filter) == Score(events, config, asOf, filter)
  {
    hide WindowedScore, Score;
    KeepAll((e: Event) => e.timestamp <= asOf, events);
  }

  // ---- What a windowed score is ----

  /** A windowed score is the score of the events the window holds; the initial value stands, whatever it is and
      however old, when none of them counts. */
  lemma WindowedScoreIs(events: seq<Event>, config: ScoringConfig, window: Option<WindowConfig>, now: real,
                        filter: bool)
    ensures var held := FilterWindow(events, window, now);
            if exists e :: e in held && (filter ==> e.context.None? || e.context.value.controllable)
            then WindowedScore(events, config, window, now, filter) == Score(held, config, now, filter)
            else WindowedScore(events, config, window, now, filter) == config.initialValue
  {
    hide FilterWindow, ScoreSorted, SortByTime, Keep;
    var held := FilterWindow(events, window, now);
    KeepMembers(Controllable, held);
    if filter {
      SortKeep(Controllable, held);
      if Keep(Controllable, held) != [] {
        assert Keep(Controllable, held)[0] in Keep(Controllable, held);
      }
    } else if held != [] {
      assert held[0] in held;
    }
  }

  // ---- One more event ----

  lemma {:induction false} SortSnoc(events: seq<Event>, e: Event)
    requires forall f :: f in events ==> f.timestamp <= e.timestamp
    ensures SortByTime(events + [e]) == SortByTime(events) + [e]
  {
    if events == [] {
      assert events + [e] == [e];
    } else {
      var x, rest := events[0], events[1..];
      assert events == [x] + rest && events + [e] == [x] + (rest + [e]);
      SortSnoc(rest, e);
      SortCons(x, rest);
      SortCons(x, rest + [e]);
      hide SortByTime;
      InsertSnoc(x, SortByTime(rest), e);
    }
  }

  lemma {:induction false} InsertSnoc(x: Event, s: seq<Event>, e: Event)
    requires x.timestamp <= e.timestamp
    ensures InsertByTime(x, s + [e]) == InsertByTime(x, s) + [e]
  {
    if s == [] {
      assert s + [e] == [e];
    } else {
      assert (s + [e])[1..] == s[1..] + [e];
      InsertSnoc(x, s[1..], e);
    }
  }

  // ---- What the window keeps ----

  /** The window never exceeds its cap exactly when the cap is at least one, or zero with nothing in age:
      a cap of zero slices from the start and keeps everything. */
  lemma WindowCapIff(events: seq<Event>, w: WindowConfig, asOf: real)
    requires w.maxEvents.Some?
    ensures |FilterWindow(events, Some(w), asOf)| <= w.maxEvents.value
       <==> w.maxEvents.value >= 1 || (w.maxEvents.value == 0 && InAge(events, w, asOf) == [])
  {
    SortSorts(InAge(events, w, asOf));
    hide InAge, SortByTime;
  }

  /** Without a window every event is held as listed. Without a cap the window holds, in time order, every event that
      is not older than the age limit, if there is one. */
  lemma WindowUncapped(events: seq<Event>, window: Option<WindowConfig>, asOf: real)
    requires window.Some? ==> window.value.maxEvents.None?
    ensures var held := FilterWindow(events, window, asOf);
            && (window.None? ==> held == events)
            && (window.Some? ==>
                  && Sorted(held)
                  && forall e :: multiset(held)[e]
                               == if window.value.maxAgeHours.Some? && e.timestamp < asOf - window.value.maxAgeHours.value
                                  then 0 else multiset(events)[e])
  {
    hide Sorted;
    if window.Some? {
      SortSorts(InAge(events, window.value, asOf));
      if window.value.maxAgeHours.Some? {
        KeepPermuted((e: Event) => e.timestamp >= asOf - window.value.maxAgeHours.value, events);
      }
    }
    hide Keep, SortByTime;
  }

  lemma SuffixIsLatest(s: seq<Event>, n: nat)
    requires Sorted(s) && n <= |s|
    ensures Sorted(s[n..]) && multiset(s[n..]) <= multiset(s)
    ensures forall e: Event, f: Event :: e in multiset(s) - multiset(s[n..]) && f in s[n..] ==> e.timestamp <= f.timestamp
  {
    assert s == s[..n] + s[n..];
    assert multiset(s) == multiset(s[..n]) + multiset(s[n..]);
    forall e: Event, f: Event | e in multiset(s) - multiset(s[n..]) && f in s[n..]
      ensures e.timestamp <= f.timestamp
    {
      assert e in s[..n];
      var i :| 0 <= i < n && s[i] == e;
      var j :| n <= j < |s| && s[j] == f;
    }
  }

  /** The window holds, in time order, the latest in-age events, as many as the cap allows: nothing it leaves
      out is later than anything it keeps. */
  lemma WindowIsLatest(events: seq<Event>, w: WindowConfig, asOf: real)
    requires w.maxEvents.Some? && w.maxEvents.value >= 1
    ensures var kept, inAge := FilterWindow(events, Some(w), asOf), InAge(events, w, asOf);
            && Sorted(kept)
            && |kept| == (if |inAge| <= w.maxEvents.value then |inAge| else w.maxEvents.value)
            && multiset(kept) <= multiset(inAge)
            && (forall e: Event, f: Event ::
                  e in multiset(inAge) - multiset(kept) && f in kept ==> e.timestamp <= f.timestamp)
  {
    hide InAge, SortByTime, Sorted, FilterWindow;
    var inAge := InAge(events, w, asOf);
    var s := SortByTime(inAge);
    SortSorts(inAge);
    WindowLatest(events, w, asOf);
    SuffixIsLatest(s, if |s| > w.maxEvents.value then |s| - w.maxEvents.value else 0);
    assert s[0..] == s;
  }

  lemma {:induction false} LateSuffix(s: seq<Event>, c: real)
    requires Sorted(s)
    ensures var late := Keep((e: Event) => e.timestamp > c, s);
            |late| <= |s| && late == s[|s| - |late|..]
  {
    var p := (e: Event) => e.timestamp > c;
    if s != [] {
      var x, rest := s[0], s[1..];
      assert s == [x] + rest;
      if p(x) {
        forall e | e in s ensures p(e) {}
        KeepAll(p, s);
      } else {
        LateSuffix(rest, c);
        KeepCons(p, x, rest);
        SuffixOfRest(s, Keep(p, rest));
      }
    }
    hide Keep;
  }

  lemma SuffixOfRest(s: seq<Event>, late: seq<Event>)
    requires s != [] && |late| <= |s| - 1 && late == s[1..][|s| - 1 - |late|..]
    ensures late == s[|s| - |late|..]
  {
  }

  function Latest(s: seq<Event>, m: nat): seq<Event> {
    if |s| > m then s[|s| - m..] else s
  }

  lemma LatestOfLate(s: seq<Event>, c: real, m: nat)
    requires Sorted(s) && |Keep((e: Event) => e.timestamp > c, s)| >= m
    ensures Latest(s, m) == Latest(Keep((e: Event) => e.timestamp > c, s), m)
  {
    LateSuffix(s, c);
  }

  lemma LateInAge(events: seq<Event>, w: WindowConfig, asOf: real, c: real)
    ensures Keep((e: Event) => e.timestamp > c, SortByTime(InAge(events, w, asOf)))
         == SortByTime(InAge(Keep((e: Event) => e.timestamp > c, events), w, asOf))
  {
    var p := (e: Event) => e.timestamp > c;
    SortKeep(p, InAge(events, w, asOf));
    if w.maxAgeHours.Some? {
      KeepKeep(p, (e: Event) => e.timestamp >= asOf - w.maxAgeHours.value, events);
    }
  }

  lemma WindowLatest(events: seq<Event>, w: WindowConfig, asOf: real)
    requires w.maxEvents.Some? && w.maxEvents.value >= 1
    ensures FilterWindow(events, Some(w), asOf) == Latest(SortByTime(InAge(events, w, asOf)), w.maxEvents.value)
  {
    hide InAge, SortByTime;
  }

  /** Two histories that agree after instant c, where they have at least a full window of in-age events, have the
      same window and the same windowed score, whatever older events either holds and wherever they are listed. */
  lemma WindowLocality(a: seq<Event>, b: seq<Event>, config: ScoringConfig, w: WindowConfig, now: real, filter: bool,
                       c: real)
    requires w.maxEvents.Some? && w.maxEvents.value >= 1
    requires Keep((e: Event) => e.timestamp > c, a) == Keep((e: Event) => e.timestamp > c, b)
    requires |InAge(Keep((e: Event) => e.timestamp > c, a), w, now)| >= w.maxEvents.value
    ensures FilterWindow(a, Some(w), now) == FilterWindow(b, Some(w), now)
    ensures WindowedScore(a, config, Some(w), now, filter) == WindowedScore(b, config, Some(w), now, filter)
  {
    hide Score, FilterControllable, InAge, SortByTime, Keep, Sorted, Latest;
    var late := Keep((e: Event) => e.timestamp > c, a);
    LateInAge(a, w, now, c);
    LateInAge(b, w, now, c);
    SortSorts(InAge(late, w, now));
    SortSorts(InAge(a, w, now));
    SortSorts(InAge(b, w, now));
    var sa, sb := SortByTime(InAge(a, w, now)), SortByTime(InAge(b, w, now));
    LatestOfLate(sa, c, w.maxEvents.value);
    LatestOfLate(sb, c, w.maxEvents.value);
    WindowLatest(a, w, now);
    WindowLatest(b, w, now);
  }
}
