/** The sliding-window limiter of failed logins, and the limiter it stands for, which never
    forgets a failure. */
module AuthLimiter {

  /** What the daemon asks of the limiter, in order. */
  datatype Event =
    | Failure(key: string, now: int)
    | Allow(key: string, now: int)
    | Success(key: string)

  function Recent(times: seq<int>, cutoff: int): (r: seq<int>)
    ensures |r| <= |times|
  {
    if times == [] then []
    else
      var r := Recent(times[..|times| - 1], cutoff);
      var last := times[|times| - 1];
      if last > cutoff then r + [last] else r
  }

  function Last<T>(s: seq<T>, n: nat): seq<T> {
    if |s| > n then s[|s| - n..] else s
  }

  /** Every failure of `key` since its last success. */
  function Failures(es: seq<Event>, key: string): seq<int> {
    if es == [] then []
    else
      var past := Failures(es[..|es| - 1], key);
      match es[|es| - 1]
      case Failure(k, now) => if k == key then past + [now] else past
      case Allow(_, _) => past
      case Success(k) => if k == key then [] else past
  }

  /** What the limiter still holds for `key`. */
  function Kept(limit: nat, window: nat, es: seq<Event>, key: string): seq<int> {
    if es == [] then []
    else
      var past := Kept(limit, window, es[..|es| - 1], key);
      match es[|es| - 1]
      case Failure(k, now) => if k == key then Last(Recent(past, now - window) + [now], limit + 1) else past
      case Allow(k, now) => if k == key then Recent(past, now - window) else past
      case Success(k) => if k == key then [] else past
  }

  /** The clock readings never go back. */
  ghost predicate Clocked(es: seq<Event>) {
    forall i, j :: 0 <= i < j < |es| && !es[i].Success? && !es[j].Success? ==> es[i].now <= es[j].now
  }

  predicate Ordered(times: seq<int>) {
    forall i, j :: 0 <= i < j < |times| ==> times[i] <= times[j]
  }

  lemma KeptAfter(limit: nat, window: nat, es: seq<Event>, e: Event, key: string)
    ensures e.key != key ==> Kept(limit, window, es + [e], key) == Kept(limit, window, es, key)
    ensures e == Success(key) ==> Kept(limit, window, es + [e], key) == []
    ensures e.key == key && e.Allow? ==>
      Kept(limit, window, es + [e], key) == Recent(Kept(limit, window, es, key), e.now - window)
    ensures e.key == key && e.Failure? ==>
      Kept(limit, window, es + [e], key) == Last(Recent(Kept(limit, window, es, key), e.now - window) + [e.now], limit + 1)
  {
    assert (es + [e])[..|es|] == es;
  }

  lemma FailuresAfter(es: seq<Event>, e: Event, key: string)
    ensures Failures(es + [e], key) ==
      if e == Success(key) then [] else if e.Failure? && e.key == key then Failures(es, key) + [e.now] else Failures(es, key)
  {
    assert (es + [e])[..|es|] == es;
  }

  lemma {:induction false} RecentPut(times: seq<int>, x: int, cutoff: int)
    ensures Recent(times + [x], cutoff) == if x > cutoff then Recent(times, cutoff) + [x] else Recent(times, cutoff)
  {
    assert (times + [x])[..|times|] == times;
  }

  lemma RecentNext(times: seq<int>, i: nat, cutoff: int)
    requires i < |times|
    ensures Recent(times[..i + 1], cutoff)
         == if times[i] > cutoff then Recent(times[..i], cutoff) + [times[i]] else Recent(times[..i], cutoff)
  {
    assert times[..i + 1][..i] == times[..i];
  }

  lemma {:induction false} RecentOfNone(times: seq<int>, cutoff: int)
    requires forall i :: 0 <= i < |times| ==> times[i] <= cutoff
    ensures Recent(times, cutoff) == []
  {
    if times != [] {
      RecentOfNone(times[..|times| - 1], cutoff);
    }
  }

  lemma LastPut<T>(s: seq<T>, x: T, n: nat)
    ensures Last(s + [x], n) == if n == 0 then [] else Last(s, n - 1) + [x]
  {
  }

  lemma LastIn<T>(s: seq<T>, n: nat, i: nat)
    requires i < |Last(s, n)|
    ensures Last(s, n)[i] in s
  {
  }

  /** Of ordered times, cutting to the last n and dropping the old ones commute. */
  lemma {:induction false} RecentOfLast(times: seq<int>, n: nat, cutoff: int)
    requires Ordered(times)
    ensures Recent(Last(times, n), cutoff) == Last(Recent(times, cutoff), n)
  {
    hide Recent, Last;
    if times == [] {
      NothingLeft(cutoff, n);
    } else {
      var past, x := times[..|times| - 1], times[|times| - 1];
      assert times == past + [x];
      LastPut(past, x, n);
      RecentPut(past, x, cutoff);
      if x <= cutoff {
        RecentOfNone(times, cutoff);
        forall i | 0 <= i < |Last(times, n)| ensures Last(times, n)[i] <= cutoff {
          LastIn(times, n, i);
        }
        RecentOfNone(Last(times, n), cutoff);
        NothingLeft(cutoff, n);
      } else {
        LastPut(Recent(past, cutoff), x, n);
        if n == 0 {
          NothingLeft(cutoff, n);
        } else {
          RecentOfLast(past, n - 1, cutoff);
          RecentPut(Last(past, n - 1), x, cutoff);
        }
      }
    }
  }

  lemma NothingLeft(cutoff: int, n: nat)
    ensures Last(Recent([], cutoff), n) == [] == Recent(Last([], n), cutoff)
    ensures Recent([], cutoff) == []
  {
  }

  lemma {:induction false} RecentOfRecent(times: seq<int>, early: int, late: int)
    requires early <= late
    ensures Recent(Recent(times, early), late) == Recent(times, late)
  {
    if times != [] {
      var past, x := times[..|times| - 1], times[|times| - 1];
      RecentOfRecent(past, early, late);
      if x > early {
        RecentPut(Recent(past, early), x, late);
      }
    }
  }

  lemma {:induction false} LastOfLast<T>(s: seq<T>, x: T, n: nat)
    ensures Last(Last(s, n) + [x], n) == Last(s + [x], n)
  {
  }

  /** Failures come from the events, in their order. */
  lemma {:induction false} FailuresOrdered(es: seq<Event>, key: string)
    requires Clocked(es)
    ensures Ordered(Failures(es, key))
    ensures forall i :: 0 <= i < |Failures(es, key)| ==>
      exists k :: 0 <= k < |es| && es[k] == Failure(key, Failures(es, key)[i])
  {
    if es != [] {
      var past := es[..|es| - 1];
      FailuresOrdered(past, key);
      var fs := Failures(past, key);
      forall i | 0 <= i < |fs| ensures exists k :: 0 <= k < |es| && es[k] == Failure(key, fs[i]) {
        var k :| 0 <= k < |past| && past[k] == Failure(key, fs[i]);
        assert es[k] == Failure(key, fs[i]);
      }
      assert es[|es| - 1].Failure? ==> forall i :: 0 <= i < |fs| ==> fs[i] <= es[|es| - 1].now;
    }
  }

  /** The cutoff of the last time the limiter looked at `key`. */
  function Cut(window: nat, es: seq<Event>, key: string): int {
    if es == [] then 0
    else
      var e := es[|es| - 1];
      if e.key == key && !e.Success? then e.now - window else Cut(window, es[..|es| - 1], key)
  }

  lemma CutAfter(window: nat, es: seq<Event>, e: Event, key: string)
    ensures Cut(window, es + [e], key) == if e.key == key && !e.Success? then e.now - window else Cut(window, es, key)
  {
    assert (es + [e])[..|es|] == es;
  }

  lemma NothingYet(limit: nat, window: nat, key: string)
    ensures Kept(limit, window, [], key) == [] == Last(Recent(Failures([], key), Cut(window, [], key)), limit + 1)
  {
  }

  lemma {:induction false} CutEarlier(window: nat, es: seq<Event>, key: string, now: int)
    requires Clocked(es + [Allow(key, now)])
    ensures Cut(window, es, key) <= now - window || Failures(es, key) == []
  {
    if es != [] {
      var past, all := es[..|es| - 1], es + [Allow(key, now)];
      forall i, j | 0 <= i < j < |past| + 1 && !(past + [Allow(key, now)])[i].Success? && !(past + [Allow(key, now)])[j].Success?
        ensures (past + [Allow(key, now)])[i].now <= (past + [Allow(key, now)])[j].now
      {
        assert all[i].now <= all[if j == |past| then |es| else j].now;
      }
      CutEarlier(window, past, key, now);
      assert !all[|es| - 1].Success? ==> all[|es| - 1].now <= all[|es|].now;
    }
  }

  lemma {:induction false} RecentOrdered(times: seq<int>, cutoff: int)
    requires Ordered(times)
    ensures Ordered(Recent(times, cutoff))
    ensures forall x :: x in Recent(times, cutoff) ==> x in times
  {
    if times != [] {
      var past, last := times[..|times| - 1], times[|times| - 1];
      RecentOrdered(past, cutoff);
      var r := Recent(past, cutoff);
      forall i | 0 <= i < |r| ensures r[i] in times && r[i] <= last {
        assert r[i] in r && r[i] in past;
        var k :| 0 <= k < |past| && past[k] == r[i];
        assert times[k] == r[i];
      }
    }
  }

  lemma ClockedPrefix(es: seq<Event>, e: Event)
    requires Clocked(es + [e])
    ensures Clocked(es) && (!e.Success? ==> Clocked(es + [Allow(e.key, e.now)]))
  {
    var all := es + [e];
    forall i, j | 0 <= i < j < |es| && !es[i].Success? && !es[j].Success? ensures es[i].now <= es[j].now {
      assert all[i] == es[i] && all[j] == es[j];
    }
    if !e.Success? {
      var asked := es + [Allow(e.key, e.now)];
      forall i, j | 0 <= i < j < |asked| && !asked[i].Success? && !asked[j].Success? ensures asked[i].now <= asked[j].now {
        assert all[i].now <= all[j].now;
      }
    }
  }

  /** Compacting what is left of the failures gives what is left of them later on. */
  lemma RecentOfKept(fs: seq<int>, n: nat, early: int, late: int)
    requires Ordered(fs) && (early <= late || fs == [])
    ensures Recent(Last(Recent(fs, early), n), late) == Last(Recent(fs, late), n)
  {
    hide Recent, Last, Ordered;
    RecentOrdered(fs, early);
    RecentOfLast(Recent(fs, early), n, late);
    if fs == [] {
      RecentOfNone(fs, early);
      RecentOfNone(fs, late);
    } else {
      RecentOfRecent(fs, early, late);
    }
  }

  /** The capped list is always the last limit + 1 of all failures in the window the limiter
      last looked at. */
  lemma {:induction false} KeptIsLastRecent(limit: nat, window: nat, es: seq<Event>, key: string)
    requires window > 0 && Clocked(es)
    ensures Kept(limit, window, es, key) == Last(Recent(Failures(es, key), Cut(window, es, key)), limit + 1)
  {
    hide Recent, Last, Kept, Failures, Cut, Clocked, Ordered;
    if es == [] {
      NothingYet(limit, window, key);
    } else {
      var past, e := es[..|es| - 1], es[|es| - 1];
      assert es == past + [e];
      CutAfter(window, past, e, key);
      ClockedPrefix(past, e);
      KeptIsLastRecent(limit, window, past, key);
      KeptAfter(limit, window, past, e, key);
      FailuresAfter(past, e, key);
      if e == Success(key) {
        NothingLeft(Cut(window, es, key), limit + 1);
      } else if e.key == key {
        var fs := Failures(past, key);
        FailuresOrdered(past, key);
        CutEarlier(window, past, key, e.now);
        RecentOfKept(fs, limit + 1, Cut(window, past, key), e.now - window);
        RecentPut(fs, e.now, e.now - window);
        LastOfLast(Recent(fs, e.now - window), e.now, limit + 1);
      }
    }
  }

  /** A limiter that kept every failure would answer the same. */
  lemma VerdictsAgree(limit: nat, window: nat, es: seq<Event>, e: Event)
    requires window > 0 && Clocked(es + [e]) && !e.Success?
    ensures |Kept(limit, window, es + [e], e.key)| < limit <==> |Recent(Failures(es + [e], e.key), e.now - window)| < limit
    ensures |Kept(limit, window, es + [e], e.key)| > limit <==> |Recent(Failures(es + [e], e.key), e.now - window)| > limit
  {
    KeptIsLastRecent(limit, window, es + [e], e.key);
    assert Cut(window, es + [e], e.key) == e.now - window;
  }

  lemma Follow(limit: nat, window: nat, es: seq<Event>, e: Event)
    requires window > 0
    ensures forall key :: key != e.key ==> Kept(limit, window, es + [e], key) == Kept(limit, window, es, key)
    ensures e.Success? ==> Kept(limit, window, es + [e], e.key) == []
    ensures e.Allow? ==> Kept(limit, window, es + [e], e.key) == Recent(Kept(limit, window, es, e.key), e.now - window)
    ensures e.Failure? ==>
      Kept(limit, window, es + [e], e.key) == Last(Recent(Kept(limit, window, es, e.key), e.now - window) + [e.now], limit + 1)
    ensures !e.Success? && Clocked(es + [e]) ==>
      && (|Kept(limit, window, es + [e], e.key)| < limit <==> |Recent(Failures(es + [e], e.key), e.now - window)| < limit)
      && (|Kept(limit, window, es + [e], e.key)| > limit <==> |Recent(Failures(es + [e], e.key), e.now - window)| > limit)
  {
    hide *;
    forall key ensures key != e.key ==> Kept(limit, window, es + [e], key) == Kept(limit, window, es, key) {
      KeptAfter(limit, window, es, e, key);
    }
    KeptAfter(limit, window, es, e, e.key);
    if !e.Success? && Clocked(es + [e]) {
      VerdictsAgree(limit, window, es, e);
    }
  }

  /** If the clock goes back, a failure already dropped as old can be missed: the third failure
      is within ten ticks of the first and of the second, but the first is gone. */
  lemma ClockMustNotGoBack()
    ensures var es := [Failure("peer", 0), Failure("peer", 100), Failure("peer", 5)];
      |Kept(2, 10, es, "peer")| <= 2 && |Recent(Failures(es, "peer"), 5 - 10)| > 2
  {
    hide Recent, Last, Kept, Failures;
    BackwardsKept();
    BackwardsFailures();
    RecentPut([0, 100], 5, -5);
    RecentPut([0], 100, -5);
    RecentPut([], 0, -5);
    assert [0] + [100] == [0, 100] && [0, 100] + [5] == [0, 100, 5] && [] + [0] == [0];
  }

  lemma BackwardsFailures()
    ensures Failures([Failure("peer", 0), Failure("peer", 100), Failure("peer", 5)], "peer") == [0, 100, 5]
  {
    var e0, e1, e2 := Failure("peer", 0), Failure("peer", 100), Failure("peer", 5);
    assert [] + [e0] == [e0] && [e0] + [e1] == [e0, e1] && [e0, e1] + [e2] == [e0, e1, e2];
    FailuresAfter([], e0, "peer");
    FailuresAfter([e0], e1, "peer");
    FailuresAfter([e0, e1], e2, "peer");
  }

  lemma BackwardsKept()
    ensures |Kept(2, 10, [Failure("peer", 0), Failure("peer", 100), Failure("peer", 5)], "peer")| <= 2
  {
    var e0, e1, e2 := Failure("peer", 0), Failure("peer", 100), Failure("peer", 5);
    assert [] + [e0] == [e0] && [e0] + [e1] == [e0, e1] && [e0, e1] + [e2] == [e0, e1, e2];
    var none: seq<Event> := [];
    assert Kept(2, 10, none, "peer") == [];
    KeptAfter(2, 10, none, e0, "peer");
    KeptAfter(2, 10, [e0], e1, "peer");
    KeptAfter(2, 10, [e0, e1], e2, "peer");
    RecentOfNone([], -10);
    RecentOfNone([0], 90);
    RecentPut([], 100, -5);
    hide Kept, Recent;
    assert [] + [0] == [0] && [] + [100] == [100];
    assert Last([0], 3) == [0] && Last([100], 3) == [100];
    assert |Last([100] + [5], 3)| == 2;
  }

  /** The failures of `key` later than `cutoff` with no success of `key` behind them, as places in the log. */
  ghost function Pending(es: seq<Event>, key: string, cutoff: int): set<nat> {
    set i: nat | i < |es| && es[i].Failure? && es[i].key == key && es[i].now > cutoff
      && forall j :: i < j < |es| ==> es[j] != Success(key)
  }

  /** The recent failures are just those. */
  lemma {:induction false} RecentArePending(es: seq<Event>, key: string, cutoff: int)
    ensures |Recent(Failures(es, key), cutoff)| == |Pending(es, key, cutoff)|
  {
    hide Recent, Failures;
    if es == [] {
      NoFailures(key, cutoff);
      assert Pending(es, key, cutoff) == {};
    } else {
      var past, e := es[..|es| - 1], es[|es| - 1];
      assert es == past + [e];
      RecentArePending(past, key, cutoff);
      FailuresAfter(past, e, key);
      PendingAfter(past, e, key, cutoff);
      if e == Success(key) {
        NoFailures(key, cutoff);
      } else if e.Failure? && e.key == key {
        RecentPut(Failures(past, key), e.now, cutoff);
      }
    }
  }

  lemma NoFailures(key: string, cutoff: int)
    ensures Failures([], key) == [] == Recent([], cutoff)
  {
  }

  lemma PendingAfter(es: seq<Event>, e: Event, key: string, cutoff: int)
    ensures |Pending(es + [e], key, cutoff)| ==
      if e == Success(key) then 0
      else |Pending(es, key, cutoff)| + if e.Failure? && e.key == key && e.now > cutoff then 1 else 0
  {
    var all, before, after := es + [e], Pending(es, key, cutoff), Pending(es + [e], key, cutoff);
    assert all[|es|] == e;
    if e == Success(key) {
      assert after == {};
    } else {
      forall i: nat | i < |es| ensures i in after <==> i in before {
        assert forall j :: i < j < |all| ==> all[j] == if j < |es| then es[j] else e;
      }
      if e.Failure? && e.key == key && e.now > cutoff {
        assert after == before + {|es|};
      } else {
        assert after == before;
      }
    }
  }

  predicate FailedWithin(e: Event, key: string, start: int, window: nat) {
    e.Failure? && e.key == key && start < e.now <= start + window
  }

  /** How many failures of `key` among es[i..j] in the window from `start` were let pass. */
  function Passed(limit: nat, window: nat, es: seq<Event>, i: nat, j: nat, key: string, start: int): nat
    requires i <= j <= |es|
  {
    if i == j then 0
    else
      Passed(limit, window, es, i, j - 1, key, start)
        + if FailedWithin(es[j - 1], key, start, window) && |Kept(limit, window, es[..j], key)| <= limit then 1 else 0
  }

  lemma {:induction false} PassedFailed(limit: nat, window: nat, es: seq<Event>, i: nat, j: nat, key: string, start: int)
    requires i <= j <= |es|
    requires forall k :: i <= k < j ==> es[k] != Success(key)
    ensures Passed(limit, window, es, i, j, key, start) <= |Recent(Failures(es[..j], key), start)|
  {
    hide Recent, Kept, Last, Failures;
    if i < j {
      PassedFailed(limit, window, es, i, j - 1, key, start);
      assert es[..j] == es[..j - 1] + [es[j - 1]];
      FailuresAfter(es[..j - 1], es[j - 1], key);
      if es[j - 1].Failure? && es[j - 1].key == key {
        RecentPut(Failures(es[..j - 1], key), es[j - 1].now, start);
      }
    }
  }

  lemma {:induction false} RecentShrinks(times: seq<int>, early: int, late: int)
    requires early <= late
    ensures |Recent(times, late)| <= |Recent(times, early)|
  {
    if times != [] {
      RecentShrinks(times[..|times| - 1], early, late);
    }
  }

  lemma ClockedUpTo(es: seq<Event>, j: nat)
    requires Clocked(es) && j <= |es|
    ensures Clocked(es[..j])
  {
  }

  /** Between two successes of a peer, at most `limit` of its failures in any one window are let pass. */
  lemma {:induction false} RateBound(limit: nat, window: nat, es: seq<Event>, i: nat, j: nat, key: string, start: int)
    requires window > 0 && Clocked(es) && i <= j <= |es|
    requires forall k :: i <= k < j ==> es[k] != Success(key)
    ensures Passed(limit, window, es, i, j, key, start) <= limit
  {
    hide Recent, Last, Kept, Failures;
    if i < j {
      var e := es[j - 1];
      RateBound(limit, window, es, i, j - 1, key, start);
      if FailedWithin(e, key, start, window) && |Kept(limit, window, es[..j], key)| <= limit {
        assert es[..j] == es[..j - 1] + [e];
        ClockedUpTo(es, j);
        VerdictsAgree(limit, window, es[..j - 1], e);
        PassedFailed(limit, window, es, i, j, key, start);
        RecentShrinks(Failures(es[..j], key), e.now - window, start);
      }
    }
  }

  /** A stretch of a buffer that other stretches may share, with room to grow behind it. */
  datatype Slice = Slice(buf: array<int>, off: nat, len: nat) {
    predicate Valid() { off + len <= buf.Length }

    function Elems(): (r: seq<int>)
      requires Valid()
      reads buf
      ensures |r| == len
    {
      buf[off..off + len]
    }
  }

  /** Moves the recent times to the front of their own buffer. */
  method Compact(s: Slice, cutoff: int) returns (kept: Slice)
    requires s.Valid()
    modifies s.buf
    ensures kept.Valid() && kept.buf == s.buf
    ensures kept.Elems() == Recent(old(s.Elems()), cutoff)
  {
    ghost var was := s.Elems();
    var n := MoveRecent(s, cutoff, was);
    kept := Slice(s.buf, s.off, n);
    assert kept.Elems() == Recent(was, cutoff);
  }

  /** The loop of Compact. */
  method MoveRecent(s: Slice, cutoff: int, ghost was: seq<int>) returns (n: nat)
    requires s.Valid() && |was| == s.len && forall k :: 0 <= k < s.len ==> s.buf[s.off + k] == was[k]
    modifies s.buf
    ensures n <= s.len && n == |Recent(was, cutoff)|
    ensures forall k :: 0 <= k < n ==> s.buf[s.off + k] == Recent(was, cutoff)[k]
  {
    hide Recent;
    n := 0;
    RecentOfNone(was[..0], cutoff);
    ghost var front := Recent(was[..0], cutoff);
    for i := 0 to s.len
      invariant n <= i && |front| == n && front == Recent(was[..i], cutoff)
      invariant forall k :: 0 <= k < n ==> s.buf[s.off + k] == front[k]
      invariant forall k :: i <= k < s.len ==> s.buf[s.off + k] == was[k]
    {
      var ts := s.buf[s.off + i];
      RecentNext(was, i, cutoff);
      if ts > cutoff {
        s.buf[s.off + n] := ts;
        n := n + 1;
        front := front + [ts];
      }
    }
    assert was[..s.len] == was;
  }

  /** One append into room that is there. */
  method Put(buf: array<int>, off: nat, n: nat, x: int)
    requires off + n < buf.Length
    modifies buf
    ensures buf[off..off + n + 1] == old(buf[off..off + n]) + [x]
    ensures forall k :: off + n < k < buf.Length ==> buf[k] == old(buf[k])
  {
    buf[off + n] := x;
  }

  /** Appends in place if the buffer has room, and in a bigger copy otherwise. */
  method Append(s: Slice, x: int) returns (r: Slice)
    requires s.Valid()
    modifies s.buf
    ensures r.Valid() && (r.buf == s.buf || fresh(r.buf))
    ensures r.Elems() == old(s.Elems()) + [x]
  {
    ghost var was := s.Elems();
    if s.off + s.len < s.buf.Length {
      Put(s.buf, s.off, s.len, x);
      r := s.(len := s.len + 1);
    } else {
      var bigger := new int[2 * s.len + 1];
      forall i | 0 <= i < s.len {
        bigger[i] := s.buf[s.off + i];
      }
      bigger[s.len] := x;
      r := Slice(bigger, 0, s.len + 1);
    }
    assert r.Elems() == was + [x];
  }

  /** Appends, and keeps no more than the last n. */
  method Push(s: Slice, x: int, n: nat) returns (r: Slice)
    requires s.Valid()
    modifies s.buf
    ensures r.Valid() && (r.buf == s.buf || fresh(r.buf))
    ensures r.Elems() == Last(old(s.Elems()) + [x], n)
  {
    r := Append(s, x);
    ghost var all := r.Elems();
    if r.len > n {
      r := Slice(r.buf, r.off + r.len - n, n);
      assert r.Elems() == all[|all| - n..];
    }
  }

  class AuthFailureLimiter {
    const limit: nat
    const window: nat
    var items: map<string, Slice>
    /** Everything asked so far. */
    ghost var events: seq<Event>

    ghost predicate Sound()
      reads `items
    {
      && limit > 0 && window > 0
      && (forall k :: k in items ==> items[k].Valid())
      && (forall j, k :: j in items && k in items && j != k ==> items[j].buf != items[k].buf)
    }

    ghost function Buffers(): set<object>
      reads `items
    {
      set k | k in items :: items[k].buf
    }

    ghost function Recorded(key: string): seq<int>
      requires Sound()
      reads `items, Buffers()
    {
      if key in items then items[key].Elems() else []
    }

    /** What is recorded is what the events so far leave. */
    ghost predicate Valid()
      reads this, Buffers()
    {
      Sound() && forall key :: Recorded(key) == Kept(limit, window, events, key)
    }

    constructor (limit: nat, window: nat)
      requires limit > 0 && window > 0
      ensures Valid() && events == [] && this.limit == limit && this.window == window
      ensures fresh(Buffers())
    {
      this.limit, this.window := limit, window;
      items := map[];
      events := [];
    }

    /** The recent failures of a key, compacted in place. A key left with none is deleted. */
    method RecentLocked(key: string, now: int) returns (kept: Slice)
      requires Sound()
      modifies `items, Buffers()
      ensures Sound() && kept.Valid()
      ensures fresh(kept.buf) || kept.buf in old(Buffers())
      ensures kept.Elems() == Recent(old(Recorded(key)), now - window)
      ensures forall k :: k in items && k != key ==> items[k].buf != kept.buf
      ensures forall k :: k in items ==> k in old(items) && items[k].buf == old(items[k].buf)
      ensures forall k :: k != key ==> Recorded(k) == old(Recorded(k))
    {
      if key !in items {
        var nothing := new int[0];
        return Slice(nothing, 0, 0);
      }
      var failures := items[key];
      if failures.len == 0 {
        return failures;
      }
      kept := Compact(failures, now - window);
      if kept.len == 0 {
        items := items - {key};
      }
    }

    /** Stores a slice whose buffer no other key uses. */
    method Keep(key: string, s: Slice)
      requires Sound() && s.Valid() && forall k :: k in items && k != key ==> items[k].buf != s.buf
      modifies `items
      ensures Sound() && Recorded(key) == s.Elems() && items.Keys == old(items.Keys) + {key}
      ensures items[key] == s && forall k :: k in items && k != key ==> k in old(items) && items[k] == old(items[k])
      ensures forall k :: k != key ==> Recorded(k) == old(Recorded(k))
    {
      items := items[key := s];
    }

    /** Records a failure and says whether the peer has too many. */
    method RecordFailureAndExceeded(key: string, now: int) returns (exceeded: bool)
      requires Valid()
      modifies this, Buffers()
      ensures Valid() && events == old(events) + [Failure(key, now)] && fresh(Buffers() - old(Buffers()))
      ensures exceeded <==> |Kept(limit, window, events, key)| > limit
      ensures Clocked(events) ==> (exceeded <==> |Recent(Failures(events, key), now - window)| > limit)
      ensures Clocked(events) ==> (exceeded <==> |Pending(events, key, now - window)| > limit)
    {
      hide Recent, Last, Kept, Failures, Clocked, Recorded, Pending;
      exceeded := Record(key, now);
      Follow(limit, window, old(events), Failure(key, now));
      RecentArePending(old(events) + [Failure(key, now)], key, now - window);
      label done:
      events := events + [Failure(key, now)];
      assert Buffers() == old@done(Buffers());
      forall k ensures Recorded(k) == Kept(limit, window, events, k) {
        assert Recorded(k) == old@done(Recorded(k));
      }
    }

    /** The step of RecordFailureAndExceeded on the slices. */
    method Record(key: string, now: int) returns (exceeded: bool)
      requires Sound()
      modifies `items, Buffers()
      ensures Sound() && fresh(Buffers() - old(Buffers()))
      ensures Recorded(key) == Last(Recent(old(Recorded(key)), now - window) + [now], limit + 1)
      ensures forall k :: k != key ==> Recorded(k) == old(Recorded(k))
      ensures exceeded <==> |Recorded(key)| > limit
    {
      hide Recent, Last;
      var failures := RecentLocked(key, now);
      failures := Push(failures, now, limit + 1);
      Keep(key, failures);
      exceeded := failures.len > limit;
    }

    /** Whether a peer may try at all. */
    method IsAllowed(key: string, now: int) returns (allowed: bool)
      requires Valid()
      modifies this, Buffers()
      ensures Valid() && events == old(events) + [Allow(key, now)] && fresh(Buffers() - old(Buffers()))
      ensures allowed <==> |Kept(limit, window, events, key)| < limit
      ensures Clocked(events) ==> (allowed <==> |Recent(Failures(events, key), now - window)| < limit)
      ensures Clocked(events) ==> (allowed <==> |Pending(events, key, now - window)| < limit)
    {
      hide Recent, Last, Kept, Failures, Clocked, Recorded, Pending;
      allowed := Refresh(key, now);
      Follow(limit, window, old(events), Allow(key, now));
      RecentArePending(old(events) + [Allow(key, now)], key, now - window);
      label done:
      events := events + [Allow(key, now)];
      assert Buffers() == old@done(Buffers());
      forall k ensures Recorded(k) == Kept(limit, window, events, k) {
        assert Recorded(k) == old@done(Recorded(k));
      }
    }

    /** The step of IsAllowed on the slices. */
    method Refresh(key: string, now: int) returns (allowed: bool)
      requires Sound()
      modifies `items, Buffers()
      ensures Sound() && fresh(Buffers() - old(Buffers()))
      ensures Recorded(key) == Recent(old(Recorded(key)), now - window)
      ensures forall k :: k != key ==> Recorded(k) == old(Recorded(k))
      ensures allowed <==> |Recorded(key)| < limit
    {
      hide Recent;
      var failures := RecentLocked(key, now);
      Keep(key, failures);
      allowed := failures.len < limit;
    }

    method RecordSuccess(key: string)
      requires Valid()
      modifies this
      ensures Valid() && events == old(events) + [Success(key)]
    {
      items := items - {key};
      events := events + [Success(key)];
    }
  }

  const SECOND: nat := 1_000_000_000

  /** A limit or window that is not positive turns the limiter off. */
  method NewAuthFailureLimiter(limit: int, windowSec: int) returns (l: AuthFailureLimiter?)
    ensures l == null <==> limit <= 0 || windowSec <= 0
    ensures l != null ==>
      fresh(l) && l.Valid() && fresh(l.Buffers()) && l.events == [] && l.limit == limit && l.window == windowSec * 1_000_000_000
  {
    if limit <= 0 || windowSec <= 0 {
      return null;
    }
    l := new AuthFailureLimiter(limit, windowSec * SECOND);
  }

  datatype Answer = Accepted | Unauthorized | RateLimited

  /** One login attempt: a bad one counts, a good one clears the peer's record. */
  method AuthenticateRequest(l: AuthFailureLimiter?, peer: string, good: bool, now: int) returns (answer: Answer)
    requires l != null ==> l.Valid()
    modifies if l == null then {} else {l} + l.Buffers()
    ensures l != null ==> l.Valid() && l.events == old(l.events) + [if good then Success(peer) else Failure(peer, now)]
    ensures answer.Accepted? <==> good
    ensures l == null ==> !answer.RateLimited?
    ensures l != null && Clocked(l.events) ==>
      (answer.RateLimited? <==> !good && |Pending(l.events, peer, now - l.window)| > l.limit)
  {
    if !good {
      if l != null {
        var exceeded := l.RecordFailureAndExceeded(peer, now);
        if exceeded {
          return RateLimited;
        }
      }
      return Unauthorized;
    }
    if l != null {
      l.RecordSuccess(peer);
    }
    return Accepted;
  }
}
