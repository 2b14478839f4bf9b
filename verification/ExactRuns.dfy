/** Runs as the daemon performs them: the protocol's runs in which every cleanup lists the whole
    job directory and the clock does not go back. What holds for every run holds for these; what
    can happen is shown with these. */
module ExactRuns {
  import opened Types
  import opened Retention
  import opened Protocol
  import opened Reachability

  /** What the clock shows at an event that reads it, and before it otherwise. */
  function Reading(cfg: Config, e: Event, clock: int): int {
    match e
    case PrepareJob(_, _, now, _, _) => now
    case PlanCleanup(_, _, cutoff, _) => cutoff + cfg.retentionDays * DAY
    case PruneMemory(_, _, now) => now
    case _ => clock
  }

  /** Every directory is listed, one without a creation time with a modification time that has
      passed. */
  ghost predicate WholeListing(s: Sys, listing: seq<Entry>, clock: int) {
    && Ids(listing) == s.disk.Keys
    && forall i :: 0 <= i < |listing| && listing[i].id in s.disk && !HasCreationTime(s.disk[listing[i].id]) ==>
         listing[i].created <= clock
  }

  ghost predicate ExactStep(cfg: Config, s: Sys, e: Event, clock: int) {
    && clock <= Reading(cfg, e, clock)
    && (e.PlanCleanup? ==> WholeListing(s, e.listing, Reading(cfg, e, clock)))
  }

  /** `es` is a run as the daemon performs it from `s`, from when the clock shows `clock`. */
  ghost predicate Exact(cfg: Config, s: Sys, es: seq<Event>, clock: int)
    requires Run(cfg, s, es)
    decreases |es|
  {
    es == [] || (ExactStep(cfg, s, es[0], clock) && Exact(cfg, Apply(cfg, s, es[0]), es[1..], Reading(cfg, es[0], clock)))
  }

  function ClockAfter(cfg: Config, es: seq<Event>, clock: int): int {
    if es == [] then clock else ClockAfter(cfg, es[1..], Reading(cfg, es[0], clock))
  }

  lemma {:induction false} ExactAppend(cfg: Config, s: Sys, es: seq<Event>, fs: seq<Event>, clock: int)
    requires Run(cfg, s, es) && Exact(cfg, s, es, clock)
    requires Run(cfg, After(cfg, s, es), fs) && Exact(cfg, After(cfg, s, es), fs, ClockAfter(cfg, es, clock))
    ensures Run(cfg, s, es + fs) && After(cfg, s, es + fs) == After(cfg, After(cfg, s, es), fs)
    ensures Exact(cfg, s, es + fs, clock)
    ensures ClockAfter(cfg, es + fs, clock) == ClockAfter(cfg, fs, ClockAfter(cfg, es, clock))
    decreases |es|
  {
    hide Apply, Enabled, ExactStep, Reading;
    RunAppend(cfg, s, es, fs);
    if es == [] {
      assert es + fs == fs;
    } else {
      ExactAppend(cfg, Apply(cfg, s, es[0]), es[1..], fs, Reading(cfg, es[0], clock));
      assert (es + fs)[0] == es[0] && (es + fs)[1..] == es[1..] + fs;
    }
  }

  lemma ExactOne(cfg: Config, s: Sys, e: Event, clock: int)
    requires Enabled(cfg, s, e) && ExactStep(cfg, s, e, clock)
    ensures Run(cfg, s, [e]) && After(cfg, s, [e]) == Apply(cfg, s, e)
    ensures Exact(cfg, s, [e], clock) && ClockAfter(cfg, [e], clock) == Reading(cfg, e, clock)
  {
    hide Apply, Enabled, ExactStep, Reading;
    RunOne(cfg, s, e);
    assert [e][1..] == [];
  }

  lemma ExactNone(cfg: Config, s: Sys, clock: int)
    ensures Run(cfg, s, []) && After(cfg, s, []) == s && Exact(cfg, s, [], clock) && ClockAfter(cfg, [], clock) == clock
  {
  }

  /** `s` can be reached by such a run from an empty job directory and a clock at 0, by when the
      clock shows `clock`. */
  ghost predicate ExactlyReachable(cfg: Config, s: Sys, clock: int) {
    exists es :: Run(cfg, FreshStart(), es) && Exact(cfg, FreshStart(), es, 0)
      && After(cfg, FreshStart(), es) == s && ClockAfter(cfg, es, 0) == clock
  }

  lemma FreshIsExact(cfg: Config)
    ensures ExactlyReachable(cfg, FreshStart(), 0)
  {
    ExactNone(cfg, FreshStart(), 0);
    assert Run(cfg, FreshStart(), []) && Exact(cfg, FreshStart(), [], 0);
  }

  lemma ExactReachRun(cfg: Config, s: Sys, clock: int, es: seq<Event>)
    requires ExactlyReachable(cfg, s, clock) && Run(cfg, s, es) && Exact(cfg, s, es, clock)
    ensures ExactlyReachable(cfg, After(cfg, s, es), ClockAfter(cfg, es, clock))
  {
    hide Run, After, Exact, ClockAfter;
    var fs :| Run(cfg, FreshStart(), fs) && Exact(cfg, FreshStart(), fs, 0)
      && After(cfg, FreshStart(), fs) == s && ClockAfter(cfg, fs, 0) == clock;
    ExactAppend(cfg, FreshStart(), fs, es, 0);
    assert Run(cfg, FreshStart(), fs + es) && Exact(cfg, FreshStart(), fs + es, 0);
  }

  lemma ExactReachStep(cfg: Config, s: Sys, clock: int, e: Event)
    requires ExactlyReachable(cfg, s, clock) && Enabled(cfg, s, e) && ExactStep(cfg, s, e, clock)
    ensures ExactlyReachable(cfg, Apply(cfg, s, e), Reading(cfg, e, clock))
  {
    hide ExactlyReachable, Enabled, Apply, ExactStep, Reading;
    ExactOne(cfg, s, e, clock);
    ExactReachRun(cfg, s, clock, [e]);
  }

  lemma ExactIsReachable(cfg: Config, s: Sys, clock: int)
    requires ExactlyReachable(cfg, s, clock)
    ensures Reachable(cfg, s)
  {
    hide Run, After, Exact, ClockAfter;
    FreshIsReachable(cfg);
    var fs :| Run(cfg, FreshStart(), fs) && Exact(cfg, FreshStart(), fs, 0)
      && After(cfg, FreshStart(), fs) == s && ClockAfter(cfg, fs, 0) == clock;
    ReachRun(cfg, FreshStart(), fs);
  }
}
