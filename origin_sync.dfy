/** The cache that keeps the gateway's `gateway.controlUi.allowedOrigins` setting in step with
    the desired allow-list (src/server.js, lines 240-246 and 321-414). A sync is split into the
    part that runs before the `config set` command is awaited (`Begin`) and the part that runs
    once it has exited (`Complete`); a call that finds a sync in flight joins it. */
module OriginSync {
  import opened Text
  import opened StringSets
  import opened Origins
  import opened Timing

  /** `ORIGIN_SYNC_INTERVAL_MS`. */
  const SyncIntervalMs: int := 60000

  /** The object `ensureControlUiAllowedOrigins` resolves to. */
  datatype SyncResult = SyncResult(ok: bool, skipped: bool, updated: bool, origins: seq<string>)

  /** What a call does before its first await: finish at once, wait for the sync already in
      flight, or issue a `config set` with the desired list. */
  datatype Decision =
    | Finished(result: SyncResult)
    | Joined(desired: seq<string>)
    | Issued(desired: seq<string>)

  /** `syncedControlUiOrigins` (a Set, kept in insertion order), the list an in-flight sync
      writes (`controlUiOriginsSync`), and `lastOriginSyncAt`. */
  datatype SyncState = SyncState(synced: seq<string>, inFlight: Option<seq<string>>, lastSyncAt: int)

  ghost predicate Valid(st: SyncState) {
    NoDups(st.synced) && (st.inFlight.Some? ==> Sorted(st.inFlight.value))
  }

  /** The state at process start. */
  function Initial(): (st: SyncState)
    ensures Valid(st) && st.synced == [] && st.inFlight.None?
  {
    SyncState([], None, 0)
  }

  /** The synced set after the seeding step: the persisted origins, each once, when it was empty. */
  function Seed(synced: seq<string>, persisted: seq<string>): (r: seq<string>)
    ensures NoDups(synced) ==> NoDups(r)
    ensures synced != [] ==> r == synced
    ensures synced == [] ==> forall o :: o in r <==> o in persisted
  {
    if synced == [] then Dedup(persisted) else synced
  }

  /** `Array.from(syncedControlUiOrigins).sort()`: the synced set as a sorted list. */
  function Known(synced: seq<string>): (r: seq<string>)
    ensures Sorted(r)
    ensures forall o :: o in r <==> o in synced
  {
    Sort(Dedup(synced))
  }

  /** `ensureControlUiAllowedOrigins` up to its first await. `configured` is `isConfigured()`;
      `items` are the entries of the persisted allow-list, read for both the desired list and
      the seeding. */
  function Begin(st: SyncState, configured: bool, url: UrlOrigin, items: seq<string>,
                 cfg: StaticOrigins, req: Option<Request>): (res: (Decision, SyncState))
    ensures Valid(st) ==> Valid(res.1)
    ensures res.1.lastSyncAt == st.lastSyncAt
    ensures !configured ==> res == (Finished(SyncResult(false, true, false, [])), st)
    ensures configured && BuildDesired(url, items, cfg, req) == [] ==>
      res == (Finished(SyncResult(true, true, false, [])), st)
    ensures configured && BuildDesired(url, items, cfg, req) != [] ==>
      res.1.synced == Seed(st.synced, PersistedOrigins(url, items))
    ensures res.0.Issued? <==>
      (configured && BuildDesired(url, items, cfg, req) != [] && st.inFlight.None?
       && Known(Seed(st.synced, PersistedOrigins(url, items))) != BuildDesired(url, items, cfg, req))
    ensures res.0.Issued? ==>
      res.0.desired == BuildDesired(url, items, cfg, req) && res.1.inFlight == Some(res.0.desired)
    ensures !res.0.Issued? ==> res.1.inFlight == st.inFlight
    ensures res.0.Joined? ==> st.inFlight.Some? && res.0.desired == BuildDesired(url, items, cfg, req)
    ensures res.0.Finished? ==> res.0.result.skipped && !res.0.result.updated
  {
    if !configured then (Finished(SyncResult(false, true, false, [])), st)
    else
      var desired := BuildDesired(url, items, cfg, req);
      if desired == [] then (Finished(SyncResult(true, true, false, [])), st)
      else
        Decide(st.(synced := Seed(st.synced, PersistedOrigins(url, items))), desired)
  }

  /** The last step of `Begin`, once the synced set is seeded: done when it already holds the
      desired list, else join the sync in flight or issue one. */
  function Decide(seeded: SyncState, desired: seq<string>): (res: (Decision, SyncState))
    ensures res.0.Finished? <==> Known(seeded.synced) == desired
    ensures res.0.Finished? ==> res.0.result == SyncResult(true, true, false, desired)
    ensures res.0.Joined? <==> Known(seeded.synced) != desired && seeded.inFlight.Some?
    ensures !res.0.Finished? ==> res.0.desired == desired
    ensures res.0.Issued? ==> res.1 == seeded.(inFlight := Some(desired))
    ensures !res.0.Issued? ==> res.1 == seeded
  {
    if Known(seeded.synced) == desired then (Finished(SyncResult(true, true, false, desired)), seeded)
    else if seeded.inFlight.Some? then (Joined(desired), seeded)
    else (Issued(desired), seeded.(inFlight := Some(desired)))
  }

  /** The in-flight sync's command has exited with `code`: on 0 the synced set becomes the list
      it wrote, otherwise it is kept; either way nothing is in flight any more. */
  function Complete(st: SyncState, code: int): (res: (SyncState, SyncResult))
    requires st.inFlight.Some?
    ensures Valid(st) ==> Valid(res.0)
    ensures res.0.inFlight.None? && res.0.lastSyncAt == st.lastSyncAt
    ensures code == 0 ==> res.0.synced == st.inFlight.value
    ensures code != 0 ==> res.0.synced == st.synced
    ensures res.1 == SyncResult(code == 0, false, code == 0, st.inFlight.value)
  {
    var desired := st.inFlight.value;
    SortedThenNoDups(desired);
    if code == 0 then (SyncState(desired, None, st.lastSyncAt), SyncResult(true, false, true, desired))
    else (st.(inFlight := None), SyncResult(false, false, false, desired))
  }

  lemma SortedThenNoDups(s: seq<string>)
    ensures Sorted(s) ==> NoDups(s)
  {
    if Sorted(s) { SortedNoDups(s); }
  }

  /** What a call that joined the sync in flight resolves to, once that sync's command exited
      with `code`. */
  function JoinResult(desired: seq<string>, code: int): (r: SyncResult)
    ensures r.ok <==> code == 0
    ensures r.skipped && !r.updated && r.origins == desired
  {
    SyncResult(code == 0, true, false, desired)
  }

  /** Whether the caller restarts the gateway after the sync: only a call that issued the
      command and saw it update the setting, when asked to and while the gateway is ready. */
  function RestartAfter(r: SyncResult, restartOnChange: bool, gatewayReady: bool): (restart: bool)
    ensures restart ==> r.ok && r.updated && !r.skipped
    ensures restart <==> r.ok && r.updated && !r.skipped && restartOnChange && gatewayReady
  {
    r.ok && r.updated && !r.skipped && restartOnChange && gatewayReady
  }

  /** The call that issued the command restarts the gateway exactly when the command
      succeeded, the caller asked for it and the gateway is ready. */
  lemma CompletedRestarts(st: SyncState, code: int, restartOnChange: bool, gatewayReady: bool)
    requires st.inFlight.Some?
    ensures RestartAfter(Complete(st, code).1, restartOnChange, gatewayReady) <==>
      code == 0 && restartOnChange && gatewayReady
  {
  }

  /** `maybeEnsureControlUiAllowedOrigins` at time `now`: within the interval it answers
      "skipped" and changes nothing; otherwise it records `now` first and then syncs. */
  function MaybeBegin(st: SyncState, now: int, configured: bool, url: UrlOrigin, items: seq<string>,
                      cfg: StaticOrigins, req: Option<Request>): (res: (Decision, SyncState))
    ensures now - st.lastSyncAt < SyncIntervalMs ==>
      res == (Finished(SyncResult(true, true, false, [])), st)
    ensures now - st.lastSyncAt >= SyncIntervalMs ==>
      res.1.lastSyncAt == now && res == Begin(st.(lastSyncAt := now), configured, url, items, cfg, req)
  {
    if now - st.lastSyncAt < SyncIntervalMs then (Finished(SyncResult(true, true, false, [])), st)
    else Begin(st.(lastSyncAt := now), configured, url, items, cfg, req)
  }

  /** A call that finishes before issuing anything (unconfigured, nothing desired, already
      synced) or that joins the sync in flight never restarts the gateway, whatever the
      joined command's exit code. */
  lemma SkippedNeverRestarts(st: SyncState, configured: bool, url: UrlOrigin, items: seq<string>,
                             cfg: StaticOrigins, req: Option<Request>, code: int,
                             restartOnChange: bool, gatewayReady: bool)
    ensures var d := Begin(st, configured, url, items, cfg, req).0;
      && (d.Finished? ==> !RestartAfter(d.result, restartOnChange, gatewayReady))
      && (d.Joined? ==> !RestartAfter(JoinResult(d.desired, code), restartOnChange, gatewayReady))
  {
  }

  /** The same for the debounced entry point, which also finishes early within the interval. */
  lemma DebouncedNeverRestarts(st: SyncState, now: int, configured: bool, url: UrlOrigin,
                               items: seq<string>, cfg: StaticOrigins, req: Option<Request>,
                               code: int, restartOnChange: bool, gatewayReady: bool)
    ensures var d := MaybeBegin(st, now, configured, url, items, cfg, req).0;
      && (d.Finished? ==> !RestartAfter(d.result, restartOnChange, gatewayReady))
      && (d.Joined? ==> !RestartAfter(JoinResult(d.desired, code), restartOnChange, gatewayReady))
  {
    if now - st.lastSyncAt >= SyncIntervalMs {
      SkippedNeverRestarts(st.(lastSyncAt := now), configured, url, items, cfg, req, code,
                           restartOnChange, gatewayReady);
    }
  }

  /** Once a sync of the desired list has succeeded, a later call with the same inputs issues
      nothing: it finds the synced set equal to the desired list. */
  lemma SyncedOnce(st: SyncState, url: UrlOrigin, items: seq<string>, cfg: StaticOrigins, req: Option<Request>)
    requires st.inFlight == Some(BuildDesired(url, items, cfg, req))
    ensures Begin(Complete(st, 0).0, true, url, items, cfg, req).0 ==
      Finished(SyncResult(true, true, false, BuildDesired(url, items, cfg, req)))
  {
    var desired := BuildDesired(url, items, cfg, req);
    SortSorted(desired);
    assert Dedup(desired) == desired;
  }

  /** A failed command leaves the cache as it was before the sync was issued, so the next call
      issues the same sync again. */
  lemma FailedSyncRetried(st: SyncState, code: int, url: UrlOrigin, items: seq<string>,
                          cfg: StaticOrigins, req: Option<Request>)
    requires code != 0
    requires Begin(st, true, url, items, cfg, req).0.Issued?
    ensures Begin(Complete(Begin(st, true, url, items, cfg, req).1, code).0, true, url, items, cfg, req).0 ==
      Begin(st, true, url, items, cfg, req).0
  {
    var mid := Begin(st, true, url, items, cfg, req).1;
    var after := Complete(mid, code).0;
    assert after.synced == Seed(st.synced, PersistedOrigins(url, items));
    if st.synced == [] && after.synced != [] {
      assert Seed(after.synced, PersistedOrigins(url, items)) == after.synced;
    }
  }

  /** The calls the cache sees: a direct sync, a debounced sync at `now`, and the exit of the
      in-flight command. */
  datatype Call =
    | Direct(configured: bool, items: seq<string>, req: Option<Request>)
    | Debounced(now: int, configured: bool, items: seq<string>, req: Option<Request>)
    | Exited(code: int)

  /** One call's effect on the state, and the time it stamped when it passed the debounce. */
  function Step(st: SyncState, c: Call, url: UrlOrigin, cfg: StaticOrigins): (res: (SyncState, Option<int>))
    ensures res.1.Some? ==>
      (c.Debounced? && res.1.value == c.now == res.0.lastSyncAt && c.now - st.lastSyncAt >= SyncIntervalMs)
    ensures res.1.None? ==> res.0.lastSyncAt == st.lastSyncAt
  {
    match c
    case Direct(configured, items, req) => (Begin(st, configured, url, items, cfg, req).1, None)
    case Debounced(now, configured, items, req) =>
      var res := MaybeBegin(st, now, configured, url, items, cfg, req);
      (res.1, if now - st.lastSyncAt >= SyncIntervalMs then Some(now) else None)
    case Exited(code) => if st.inFlight.Some? then (Complete(st, code).0, None) else (st, None)
  }

  /** A sequence of calls, with the times of the debounced calls that went through. */
  function Run(st: SyncState, calls: seq<Call>, url: UrlOrigin, cfg: StaticOrigins): (res: (SyncState, seq<int>))
    decreases |calls|
  {
    if calls == [] then (st, [])
    else
      var step := Step(st, calls[0], url, cfg);
      var rest := Run(step.0, calls[1..], url, cfg);
      (rest.0, Stamped(step.1) + rest.1)
  }

  /** The debounce: whatever else happens in between, two debounced calls that go through are
      at least the interval apart, and the first is at least the interval after the last stamp. */
  lemma {:induction false} DebounceSpacing(st: SyncState, calls: seq<Call>, url: UrlOrigin, cfg: StaticOrigins)
    ensures Spaced(st.lastSyncAt, SyncIntervalMs, Run(st, calls, url, cfg).1)
    ensures Run(st, calls, url, cfg).0.lastSyncAt ==
      (if Run(st, calls, url, cfg).1 == [] then st.lastSyncAt else Last(Run(st, calls, url, cfg).1))
    decreases |calls|
  {
    if calls != [] {
      var step := Step(st, calls[0], url, cfg);
      var rest := Run(step.0, calls[1..], url, cfg);
      DebounceSpacing(step.0, calls[1..], url, cfg);
      ConsSpaced(st.lastSyncAt, SyncIntervalMs, step.1, step.0.lastSyncAt, rest.1);
    }
  }

  /** The cache as the server keeps it: three module-level variables. */
  class OriginSyncCache {
    var synced: seq<string>
    var inFlight: Option<seq<string>>
    var lastSyncAt: int

    function State(): SyncState
      reads this
    {
      SyncState(synced, inFlight, lastSyncAt)
    }

    constructor ()
      ensures State() == Initial()
    {
      synced := [];
      inFlight := None;
      lastSyncAt := 0;
    }

    /** `ensureControlUiAllowedOrigins` up to its first await. */
    method Ensure(configured: bool, url: UrlOrigin, items: seq<string>, cfg: StaticOrigins, req: Option<Request>)
      returns (d: Decision)
      modifies this
      ensures (d, State()) == Begin(old(State()), configured, url, items, cfg, req)
    {
      if !configured {
        return Finished(SyncResult(false, true, false, []));
      }
      var desired := BuildDesired(url, items, cfg, req);
      if desired == [] {
        return Finished(SyncResult(true, true, false, []));
      }
      SeedFrom(PersistedOrigins(url, items));
      d := Settle(desired);
    }

    /** The rest of `ensureControlUiAllowedOrigins` before its first await. */
    method Settle(desired: seq<string>) returns (d: Decision)
      modifies this
      ensures (d, State()) == Decide(old(State()), desired)
    {
      var known := Known(synced);
      if known == desired {
        return Finished(SyncResult(true, true, false, desired));
      }
      if inFlight.Some? {
        return Joined(desired);
      }
      inFlight := Some(desired);
      return Issued(desired);
    }

    /** Fills an empty synced set with the persisted origins, in order, each once. */
    method SeedFrom(persisted: seq<string>)
      modifies this
      ensures synced == Seed(old(synced), persisted)
      ensures inFlight == old(inFlight) && lastSyncAt == old(lastSyncAt)
    {
      if synced != [] {
        return;
      }
      var i := 0;
      while i < |persisted|
        invariant 0 <= i <= |persisted|
        invariant synced == Dedup(persisted[..i])
        invariant inFlight == old(inFlight) && lastSyncAt == old(lastSyncAt)
      {
        assert persisted[..i + 1][..i] == persisted[..i];
        if persisted[i] !in synced {
          synced := synced + [persisted[i]];
        }
        i := i + 1;
      }
      assert persisted[..i] == persisted;
    }

    /** The in-flight command has exited with `code`: the synced set is cleared and refilled
      with the list written when the code is 0; the in-flight marker is dropped. */
    method Finish(code: int) returns (r: SyncResult)
      requires Valid(State()) && inFlight.Some?
      modifies this
      ensures (State(), r) == Complete(old(State()), code)
    {
      var desired := inFlight.value;
      if code != 0 {
        inFlight := None;
        return SyncResult(false, false, false, desired);
      }
      SortedNoDups(desired);
      synced := [];
      var i := 0;
      while i < |desired|
        invariant 0 <= i <= |desired|
        invariant synced == desired[..i]
        invariant inFlight == old(inFlight) && lastSyncAt == old(lastSyncAt)
      {
        assert desired[i] !in desired[..i];
        synced := synced + [desired[i]];
        i := i + 1;
      }
      assert desired[..i] == desired;
      inFlight := None;
      return SyncResult(true, false, true, desired);
    }

    /** `maybeEnsureControlUiAllowedOrigins` at time `now`. */
    method MaybeEnsure(now: int, configured: bool, url: UrlOrigin, items: seq<string>,
                       cfg: StaticOrigins, req: Option<Request>) returns (d: Decision)
      modifies this
      ensures (d, State()) == MaybeBegin(old(State()), now, configured, url, items, cfg, req)
    {
      if now - lastSyncAt < SyncIntervalMs {
        return Finished(SyncResult(true, true, false, []));
      }
      lastSyncAt := now;
      d := Ensure(configured, url, items, cfg, req);
    }
  }
}
