/**
 * pkg/aliyun/native_oauth_transaction.go and pkg/aliyun/oauth_configure.go.
 *
 * `Disk` holds the three files of module OAuthProtocol as configfile targets.
 * Its ghost `run` lists every action performed since `origin`; `Valid()` says
 * that all of them were enabled, so the theorems about runs apply to it.  Other
 * processes save the configuration between the steps (`Others`), unless the
 * disk is `alone`.
 */
module OAuthDisk {
  import opened Common
  import opened FilePrimitives
  import opened OAuthProtocol
  import opened OAuthTokens

  /** nil, or the two marks that a joined Go error can carry. */
  datatype Outcome = Ok | Failed(changed: bool, applied: bool)

  const PROFILE_CHANGED := Failed(true, false)
  const OTHER := Failed(false, false)

  /** errors.Join */
  function Join(a: Outcome, b: Outcome): Outcome {
    match (a, b)
    case (Ok, _) => b
    case (_, Ok) => a
    case (Failed(c0, p0), Failed(c1, p1)) => Failed(c0 || c1, p0 || p1)
  }

  function OfWrite(r: WriteResult): Outcome {
    match r
    case Nil => Ok
    case PostCommitError => Failed(false, true)
    case OtherError => OTHER
  }

  /** The profile was not found changed under the run. */
  predicate Unchanged(o: Outcome) {
    o.Ok? || !o.changed
  }

  /** What one action keeps. */
  lemma StepKeeps(a: Action, w: World)
    requires Enabled(a, w)
    ensures Inv(w) && SafeStep(a, w) ==> Inv(Effect(a, w))
    ensures TokenSafe(w) && AnswersSafely(a, w) ==> TokenSafe(Effect(a, w))
  {
    hide *;
    if Inv(w) && SafeStep(a, w) {
      ActionKeepsInv(a, w);
    }
    if TokenSafe(w) && AnswersSafely(a, w) {
      ActionKeepsSafe(a, w);
    }
  }

  /** What a roll back and the sync behind it do to the cache. */
  lemma PutsPreviousBack(w: World)
    ensures Enabled(RestorePrevious, w) ==>
      Effect(RestorePrevious, w) == w.(cch := Renamed(w.cch, w.jnl.now.value.previous))
    ensures SyncsCacheOnly(w) && SyncsCacheOnly(Effect(RestorePrevious, w))
  {
  }

  /** The prepared entry may be committed over the entry that the log record names. */
  lemma CommitsNext(w: World)
    requires w.writing && w.jnl == Cell(Some(w.attempt), {Some(w.attempt)}) && w.cch.now == w.attempt.previous
    requires (w.cch.now.Some? ==> w.cch.now.value.mode == OAuth) && Fresh(w, w.attempt.next)
    ensures Enabled(CommitNext, w)
    ensures Effect(CommitNext, w) == w.(cch := Renamed(w.cch, Some(w.attempt.next)))
  {
  }

  /** The journal may be dropped once the previous entry is durably back. */
  lemma DropsUndone(w: World)
    requires Readable(See(w)) && !w.confirmed && !RollsForward(w.jnl.now.value, See(w))
    requires Durable(w.cch) && AtPrevious(w.jnl.now.value, w.cch.now)
    ensures Enabled(DropJournal, w)
  {
  }

  predicate SyncsCacheOnly(w: World) {
    var w' := Effect(SyncCache, w);
    && Enabled(SyncCache, w)
    && w' == w.(cch := Settled(w.cch), pending := w'.pending, unsettled := w'.unsettled)
    && w'.unsettled <= w.unsettled && (w.pending.None? ==> w'.pending.None?)
  }

  class Disk {
    const config: Target<Doc>
    const cache: Target<Entry>
    const journal: Target<Record>
    const profile: nat
    const resolved: nat      // the file that the configuration path leads to
    const healthy: bool      // no operating-system call fails
    const alone: bool        // no other process saves the configuration
    // The bookkeeping of `World`; no branch of the modelled code looks at it.
    var attempt: Record
    var writing: bool
    var confirmed: bool
    var renewed: bool
    var reverted: set<Record>
    var drawn: Generation
    var issued: map<Generation, Token>
    var pending: Option<Generation>
    var unsettled: set<Generation>
    ghost const origin: World
    ghost var run: seq<Action>

    function W(): World
      reads this, config, cache, journal
    {
      World(config.State(), cache.State(), journal.State(), profile, resolved,
            attempt, writing, confirmed, renewed, reverted, drawn, issued, pending, unsettled)
    }

    ghost predicate Wired()
      reads this
    {
      && config as object != cache && cache as object != journal && config as object != journal
      && config.healthy == cache.healthy == journal.healthy == healthy
    }

    ghost predicate Valid()
      reads this, config, cache, journal
    {
      && Wired()
      && config.Valid() && cache.Valid() && journal.Valid()
      && AllEnabled(origin, run) && W() == Exec(origin, run)
    }

    constructor (config: Target<Doc>, cache: Target<Entry>, journal: Target<Record>, profile: nat, resolved: nat,
                 alone: bool, first: Record, issued: map<Generation, Token>)
      requires config as object != cache && cache as object != journal && config as object != journal
      requires config.healthy == cache.healthy == journal.healthy
      requires config.Valid() && cache.Valid() && journal.Valid()
      ensures Valid() && run == [] && !confirmed
      ensures this.config == config && this.cache == cache && this.journal == journal
    {
      this.config, this.cache, this.journal := config, cache, journal;
      this.profile, this.resolved, this.healthy, this.alone := profile, resolved, config.healthy, alone;
      attempt, writing, confirmed, renewed, reverted, drawn := first, false, false, false, {}, 0;
      this.issued, pending, unsettled, run := issued, None, {}, [];
      origin := World(config.State(), cache.State(), journal.State(), profile, resolved,
                      first, false, false, false, {}, 0, issued, None, {});
    }

    method SystemCall() returns (ok: bool)
      ensures healthy ==> ok
    {
      ok := *;
      if healthy {
        ok := true;
      }
    }

    /** Adds one action to the run and moves the bookkeeping along. */
    method Log(a: Action, w: World)
      requires AllEnabled(origin, run) && w == Exec(origin, run) && Enabled(a, w)
      modifies this`run, this`attempt, this`writing, this`confirmed, this`renewed, this`reverted, this`drawn
      modifies this`issued, this`pending, this`unsettled
      ensures run == old(run) + [a] && AllEnabled(origin, run) && Exec(origin, run) == Effect(a, w)
      ensures
        var w' := Effect(a, w);
        && attempt == w'.attempt && writing == w'.writing && confirmed == w'.confirmed && renewed == w'.renewed
        && reverted == w'.reverted && drawn == w'.drawn
        && issued == w'.issued && pending == w'.pending && unsettled == w'.unsettled
      ensures Inv(w) && SafeStep(a, w) ==> Inv(Effect(a, w))
      ensures TokenSafe(w) && AnswersSafely(a, w) ==> TokenSafe(Effect(a, w))
    {
      hide *;
      ghost var end, run' := Extend(origin, w, run, a);
      run := run';
      var w' := Effect(a, w);
      attempt, writing, confirmed, renewed := w'.attempt, w'.writing, w'.confirmed, w'.renewed;
      reverted, drawn := w'.reverted, w'.drawn;
      issued, pending, unsettled := w'.issued, w'.pending, w'.unsettled;
      StepKeeps(a, w);
    }

    /** The invariant of the protocol holds if it held before. */
    twostate predicate KeepsInv()
      reads this, config, cache, journal
    {
      old(Inv(W())) ==> Inv(W())
    }

    /** The tokens are as safe as they were; this holds of everything but a rotation. */
    twostate predicate KeepsTokens()
      reads this, config, cache, journal
    {
      old(run) <= run && (old(TokenSafe(W())) ==> TokenSafe(W()))
    }

    /**
     * What holds of a provider's steps: the invariant is kept without another
     * login coming to be at stake, and the tokens too if the absence of the
     * journal is durable.
     */
    twostate predicate KeepsAttempt()
      reads this, config, cache, journal
    {
      && KeepsInv() && attempt == old(attempt) && old(reverted) <= reverted
      && old(run) <= run
      && (old(journal.State()) == Cell(None, {None}) ==>
            journal.State() == Cell(None, {None}) && (old(TokenSafe(W())) ==> TokenSafe(W())))
    }

    // ----------------------------------------------------------------
    // Other processes.

    twostate predicate OnlyOthers()
      reads this, config, cache, journal
    {
      && Meanwhile(old(W()), W()) && KeepsTokens()
      && (forall i :: |old(run)| <= i < |run| ==> OthersAction(run[i]) || RecoveryAction(run[i]))
      && (alone ==> config.State() == old(config.State()))
    }

    /** Another process saves the configuration, or gets its save synced, or does neither. */
    method OtherStep()
      requires Valid()
      modifies this, config
      ensures Valid() && OnlyOthers()
    {
      hide AllEnabled, Exec, Inv, TokenSafe, NewToken, NewGeneration, Meanwhile, NotByOthers;
      MeanwhileBegins(W());
      if alone { return; }
      var d: Doc := *;
      var touches: bool := *;
      var a := if touches then TouchConfig(d) else ChangeConfig(d);
      var w := W();
      var syncs: bool := *;
      if syncs {
        var done := config.Sync();
        if done {
          MeanwhileStep(SyncConfig, w);
          Log(SyncConfig, w);
        }
      } else if Enabled(a, w) {
        var done := config.Rename(Some(d));
        if done {
          MeanwhileStep(a, w);
          Log(a, w);
        }
      }
    }

    /** Any number of such steps. */
    method Others()
      requires Valid()
      modifies this, config
      ensures Valid() && OnlyOthers()
    {
      hide AllEnabled, Exec, Meanwhile, Inv, TokenSafe;
      ghost var w := W();
      MeanwhileBegins(w);
      var n: nat := *;
      while n > 0
        invariant Valid() && OnlyOthers()
      {
        ghost var w1 := W();
        OtherStep();
        MeanwhileGoesOn(w, w1, W());
        n := n - 1;
      }
    }

    // ----------------------------------------------------------------
    // One write or sync of one file.

    /** What a write of the cache that starts with action `a` may have done. */
    twostate predicate CacheWritten(a: Action, r: WriteResult)
      reads this, config, cache, journal
    {
      && KeepsInv() && KeepsTokens()
      && (r == Nil ==> run == old(run) + [a] + [SyncCache] && W() == Effect(SyncCache, Effect(a, old(W()))))
      && (r == PostCommitError ==>
            || (run == old(run) + [a] && W() == Effect(a, old(W())))
            || (run == old(run) + [a] + [SyncCache] && W() == Effect(SyncCache, Effect(a, old(W())))))
      && (r == OtherError ==> run == old(run) && W() == old(W()))
    }

    method WriteCache(v: Entry, a: Action) returns (r: WriteResult)
      requires Valid() && Enabled(a, W()) && !a.PowerLoss? && !a.DropJournal? && !a.Answer?
      requires Effect(a, W()) == W().(cch := Renamed(W().cch, Some(v)))
      modifies this, cache
      ensures Valid() && CacheWritten(a, r)
      ensures healthy ==> r == Nil
      ensures r != OtherError ==> !cache.linked
    {
      hide AllEnabled, Exec, Inv, TokenSafe, Enabled, Effect;
      var w := W();
      var steps;
      r, steps := cache.AtomicWritePrivate(v);
      if |steps| >= 1 {
        Log(a, w);
        w := Effect(a, w);
        SyncCacheOnly(w);
      }
      if |steps| == 2 {
        Log(SyncCache, w);
      }
    }

    /** RemovePrivateFile on the cache entry: `RestorePrevious` if it is there, a plain sync if not. */
    method RemoveCache() returns (r: WriteResult)
      requires Valid()
      requires cache.file.Some? ==> Enabled(RestorePrevious, W()) && journal.file.value.previous.None?
      modifies this, cache
      ensures Valid() && KeepsInv() && KeepsTokens()
      ensures old(cache.file).Some? ==> CacheWritten(RestorePrevious, r)
      ensures old(cache.file).None? ==>
        if r == Nil then run == old(run) + [SyncCache] && W() == Effect(SyncCache, old(W()))
        else run == old(run) && W() == old(W())
      ensures healthy && !old(cache.linked) ==> r == Nil
    {
      hide AllEnabled, Exec, Inv, TokenSafe, NewToken, NewGeneration;
      var w := W();
      var there := cache.file.Some?;
      var steps;
      r, steps := cache.RemovePrivateFile();
      if there {
        if |steps| >= 1 {
          Log(RestorePrevious, w);
          w := Effect(RestorePrevious, w);
        }
        if |steps| == 2 {
          Log(SyncCache, w);
        }
      } else if r == Nil {
        Log(SyncCache, w);
      }
    }

    /** RemovePrivateFile on the journal: `DropJournal` if it is there, a plain sync if not. */
    method RemoveJournal() returns (r: WriteResult)
      requires Valid() && (journal.file.Some? ==> Enabled(DropJournal, W()))
      modifies this, journal
      ensures Valid() && KeepsTokens()
      ensures old(journal.file).Some? ==>
        && (r == Nil ==>
              && run == old(run) + [DropJournal] + [SyncJournal]
              && W() == Effect(SyncJournal, Effect(DropJournal, old(W()))))
        && (r == PostCommitError ==> run == old(run) + [DropJournal] && W() == Effect(DropJournal, old(W())))
        && (r == OtherError ==> run == old(run) && W() == old(W()))
      ensures old(journal.file).None? ==>
        if r == Nil then run == old(run) + [SyncJournal] && W() == Effect(SyncJournal, old(W()))
        else run == old(run) && W() == old(W())
      ensures healthy && !old(journal.linked) ==> r == Nil
      ensures old(SafeStep(DropJournal, W())) ==> KeepsInv()
    {
      hide AllEnabled, Exec, Inv, TokenSafe, NewToken, NewGeneration, NoneNew;
      var w := W();
      var there := journal.file.Some?;
      var steps;
      r, steps := journal.RemovePrivateFile();
      if there {
        if |steps| >= 1 {
          Log(DropJournal, w);
          w := Effect(DropJournal, w);
        }
        if |steps| == 2 {
          Log(SyncJournal, w);
        }
      } else if r == Nil {
        Log(SyncJournal, w);
      }
    }

    method SyncCacheFile() returns (ok: bool)
      requires Valid()
      modifies this, cache
      ensures Valid() && (healthy ==> ok) && KeepsInv() && KeepsTokens()
      ensures if ok then run == old(run) + [SyncCache] && W() == Effect(SyncCache, old(W()))
              else run == old(run) && W() == old(W())
      ensures cache.linked == old(cache.linked)
    {
      hide AllEnabled, Exec, Inv, TokenSafe, NewToken, NewGeneration;
      var w := W();
      ok := cache.Sync();
      if ok {
        Log(SyncCache, w);
      }
    }

    method SyncConfigFile() returns (ok: bool)
      requires Valid()
      modifies this, config
      ensures Valid() && (healthy ==> ok) && KeepsInv() && KeepsTokens()
      ensures if ok then run == old(run) + [SyncConfig] && W() == old(W()).(cfg := Settled(old(W()).cfg))
              else run == old(run) && W() == old(W())
    {
      hide AllEnabled, Exec, Inv, TokenSafe, NewToken, NewGeneration;
      var w := W();
      ok := config.Sync();
      if ok {
        Log(SyncConfig, w);
      }
    }

    /** The profile lock goes back; an answer that was not made durable is lost with it. */
    method Release()
      requires Valid()
      modifies this
      ensures Valid() && KeepsInv() && KeepsTokens()
      ensures run == old(run) + [Unlock] && pending.None? && !confirmed && W() == ReleaseLock(old(W()))
      ensures attempt == old(attempt) && reverted == old(reverted)
      ensures config.State() == old(config.State()) && cache.State() == old(cache.State())
      ensures journal.State() == old(journal.State())
    {
      hide AllEnabled, Exec, Inv, TokenSafe, NewToken, NewGeneration;
      Log(Unlock, W());
    }

    // ----------------------------------------------------------------
    // Recovery.

    /** Only recovery and other processes since the start, and nobody asked the token service. */
    twostate predicate Recovering()
      reads this, config, cache, journal
    {
      && KeepsTokens()
      && (forall i :: |old(run)| <= i < |run| ==> RecoveryAction(run[i]) || OthersAction(run[i]))
      && attempt == old(attempt) && renewed == old(renewed) && old(reverted) <= reverted && drawn == old(drawn)
      && issued == old(issued)
      && unsettled <= old(unsettled) && (old(pending).None? ==> pending.None?)
      && (drawn != 0 && old(Unused(drawn, config.State())) ==> Unused(drawn, config.State()))
    }

    /** A step of recovery that writes the cache and nothing else. */
    twostate predicate CacheOnly()
      reads this, config, cache, journal
    {
      && Recovering() && KeepsInv() && confirmed == old(confirmed)
      && config.State() == old(config.State()) && journal.State() == old(journal.State())
    }

    /** The conditional stores, which read the entry again before they replace it. */
    method StoreIfGeneration(expected: Generation, e: Entry, a: Action) returns (o: Outcome)
      requires Valid() && (a.InstallNext? || a.RestorePrevious?)
      requires
        && expected != 0 && cache.file.Some?
        && cache.file.value.generation == expected && cache.file.value.mode == e.mode ==>
          Enabled(a, W()) && Effect(a, W()) == W().(cch := Renamed(W().cch, Some(e)))
      modifies this, cache
      ensures Valid() && CacheOnly()
      ensures
        var writes := expected != 0 && old(cache.file).Some? && old(cache.file).value.generation == expected
                      && old(cache.file).value.mode == e.mode;
        && (o.Ok? ==> writes && cache.file == Some(e))
        && (!writes ==> W() == old(W()))
        && (healthy && writes ==> o.Ok?)
      ensures cache.file == old(cache.file) || cache.file == Some(e)
    {
      hide AllEnabled, Exec, Inv, TokenSafe, Enabled, Effect;
      SyncCacheOnly(Effect(a, W()));
      if expected == 0 { return OTHER; }
      var readable := SystemCall();
      if !readable || cache.file.None? { return OTHER; }
      var current := cache.file.value;
      if current.generation != expected || current.mode != e.mode { return PROFILE_CHANGED; }
      var r := WriteCache(e, a);
      o := OfWrite(r);
    }

    method StoreIfMissing(e: Entry, a: Action) returns (o: Outcome)
      requires Valid() && (a.InstallNext? || a.RestorePrevious?)
      requires cache.file.None? ==> Enabled(a, W()) && Effect(a, W()) == W().(cch := Renamed(W().cch, Some(e)))
      modifies this, cache
      ensures Valid() && CacheOnly()
      ensures o.Ok? ==> old(cache.file).None? && cache.file == Some(e)
      ensures old(cache.file).Some? ==> W() == old(W())
      ensures healthy && old(cache.file).None? ==> o.Ok?
      ensures cache.file == old(cache.file) || cache.file == Some(e)
    {
      hide AllEnabled, Exec, Inv, TokenSafe, Enabled, Effect;
      SyncCacheOnly(Effect(a, W()));
      var ready := SystemCall();
      if !ready { return OTHER; }
      if cache.file.Some? { return PROFILE_CHANGED; }
      var r := WriteCache(e, a);
      o := OfWrite(r);
    }

    /** confirmNativeOAuthCacheReplacement */
    method ConfirmCache(owner: Entry) returns (o: Outcome)
      requires Valid()
      modifies this, cache
      ensures Valid() && CacheOnly()
      ensures cache.file == old(cache.file) && cache.linked == old(cache.linked)
      ensures o.Ok? ==> Owns(owner, cache.file) && Durable(W().cch)
      ensures healthy ==> (o.Ok? <==> Owns(owner, cache.file))
    {
      hide AllEnabled, Exec, Inv, TokenSafe, NewToken, NewGeneration;
      var synced := SyncCacheFile();
      if !synced { return Failed(false, true); }
      var readable := SystemCall();
      if !readable { return OTHER; }
      if cache.file.None? || cache.file.value.mode != owner.mode || cache.file.value.generation != owner.generation {
        return PROFILE_CHANGED;
      }
      o := Ok;
    }

    /** installNativeOAuthTransactionNext */
    method InstallNextEntry(record: Record) returns (o: Outcome)
      requires Valid() && journal.file == Some(record) && Readable(See(W())) && confirmed
      modifies this, cache
      ensures Valid() && CacheOnly()
      ensures o.Ok? ==> AtNext(record, cache.file) && Durable(W().cch)
      ensures cache.file == old(cache.file) || TowardNext(record, old(cache.file)) == Put(cache.file)
      ensures healthy ==> (o.Ok? <==> TowardNext(record, old(cache.file)) != Refuse)
      ensures healthy ==> (match TowardNext(record, old(cache.file))
                           case Put(e) => cache.file == e
                           case _ => cache.file == old(cache.file))
    {
      hide AllEnabled, Exec, Inv, TokenSafe, NewToken, NewGeneration;
      var readable := SystemCall();
      if !readable { return OTHER; }
      var current := cache.file;
      if current.Some? && current.value.generation == record.next.generation {
        if current.value.mode != record.next.mode { return PROFILE_CHANGED; }
        o := ConfirmCache(record.next);
        return;
      }
      if current.Some? && (record.previous.None? || current.value.generation != record.previous.value.generation) {
        return PROFILE_CHANGED;
      }
      if current.Some? {
        o := StoreIfGeneration(record.previous.value.generation, record.next, InstallNext);
      } else {
        o := StoreIfMissing(record.next, InstallNext);
      }
      if !o.Ok? { return; }
      o := ConfirmCache(record.next);
    }

    /**
     * rollbackCredentialCacheEntry: compare once more, then put `previous` back
     * or remove the entry.  A file that is gone by now was removed from outside;
     * gone before its path is resolved, it is taken as rolled back.
     */
    method RollbackEntry(replaced: Generation, previous: Option<Entry>) returns (o: Outcome)
      requires Valid()
      requires cache.file.Some? && cache.file.value.generation == replaced ==>
        Enabled(RestorePrevious, W()) && journal.file.value.previous == previous
      modifies this, cache
      ensures Valid() && CacheOnly()
      ensures o.Ok? && old(cache.file).Some? ==>
        old(cache.file).value.generation == replaced && cache.State() == Cell(previous, {previous})
      ensures o.Ok? && old(cache.file).None? ==> cache.file.None?
      ensures cache.file == old(cache.file) || cache.file == previous
      ensures old(cache.file).Some? && old(cache.file).value.generation != replaced ==> !o.Ok? && W() == old(W())
      ensures
        && healthy && !old(cache.linked)
        && (old(cache.file).Some? ==> old(cache.file).value.generation == replaced)
        ==> o.Ok?
    {
      hide AllEnabled, Exec, Inv, TokenSafe, Enabled, Effect;
      PutsPreviousBack(W());
      if cache.file.None? {
        var resolves: bool := *;
        if !resolves { return Ok; }
        var r := RemoveCache();
        return OfWrite(r);
      }
      var locked := SystemCall();
      if !locked { return OTHER; }
      if cache.file.value.generation != replaced { return PROFILE_CHANGED; }
      var r;
      if previous.Some? {
        r := WriteCache(previous.value, RestorePrevious);
      } else {
        r := RemoveCache();
      }
      o := OfWrite(r);
    }

    /** restoreNativeOAuthTransactionPrevious */
    method RestorePreviousEntry(record: Record) returns (o: Outcome)
      requires Valid() && journal.file == Some(record) && Readable(See(W()))
      requires !RollsForward(record, See(W())) && !confirmed
      modifies this, cache
      ensures Valid() && CacheOnly()
      ensures o.Ok? ==> AtPrevious(record, cache.file) && Durable(W().cch)
      ensures cache.file == old(cache.file) || TowardPrevious(record, old(cache.file)) == Put(cache.file)
      ensures healthy && !old(cache.linked) ==> (o.Ok? <==> TowardPrevious(record, old(cache.file)) != Refuse)
      ensures healthy && !old(cache.linked) ==>
        (match TowardPrevious(record, old(cache.file))
         case Put(e) => cache.file == e
         case _ => cache.file == old(cache.file))
    {
      hide AllEnabled, Exec, Inv, TokenSafe, NewToken, NewGeneration;
      var readable := SystemCall();
      if !readable { return OTHER; }
      if record.previous.Some? {
        o := RestoreRecorded(record);
      } else if cache.file.None? {
        var r := RemoveCache();
        o := OfWrite(r);
      } else if cache.file.value.generation != record.next.generation {
        o := PROFILE_CHANGED;
      } else {
        o := RollbackEntry(record.next.generation, None);
      }
    }

    /** The branch of the restore that has an entry to put back. */
    method RestoreRecorded(record: Record) returns (o: Outcome)
      requires Valid() && journal.file == Some(record) && Readable(See(W()))
      requires !RollsForward(record, See(W())) && !confirmed && record.previous.Some?
      modifies this, cache
      ensures Valid() && CacheOnly()
      ensures o.Ok? ==> Owns(record.previous.value, cache.file) && Durable(W().cch)
      ensures cache.file == old(cache.file) || TowardPrevious(record, old(cache.file)) == Put(cache.file)
      ensures healthy ==> (o.Ok? <==> TowardPrevious(record, old(cache.file)) != Refuse)
      ensures healthy ==>
        cache.file == if TowardPrevious(record, old(cache.file)).Put? then record.previous else old(cache.file)
    {
      hide AllEnabled, Exec, Inv, TokenSafe, NewToken, NewGeneration;
      var current := cache.file;
      var previous := record.previous.value;
      if current.Some? && current.value.generation == previous.generation {
        if current.value.mode != previous.mode { return PROFILE_CHANGED; }
        o := ConfirmCache(previous);
        return;
      }
      if current.Some? && current.value.generation != record.next.generation { return PROFILE_CHANGED; }
      if current.Some? {
        o := StoreIfGeneration(record.next.generation, previous, RestorePrevious);
      } else {
        o := StoreIfMissing(previous, RestorePrevious);
      }
      if !o.Ok? { return; }
      o := ConfirmCache(previous);
    }

    /** deleteNativeOAuthTransaction */
    method DeleteJournal() returns (o: Outcome)
      requires Valid() && (journal.file.Some? ==> Enabled(DropJournal, W()))
      modifies this, journal
      ensures Valid() && Recovering()
      ensures config.State() == old(config.State()) && cache.State() == old(cache.State())
      ensures journal.file == old(journal.file) || journal.file.None?
      ensures o.Ok? ==> journal.State() == Cell(None, {None}) && (old(journal.file).Some? ==> !confirmed)
      ensures Unchanged(o)
      ensures healthy && !old(journal.linked) ==> o.Ok?
      ensures old(SafeStep(DropJournal, W())) ==> KeepsInv()
    {
      hide AllEnabled, Exec, Inv, TokenSafe, NewToken, NewGeneration, NoneNew;
      if journal.file.None? {
        var r := RemoveJournal();
        return OfWrite(r);
      }
      var locked := SystemCall();
      if !locked { return OTHER; }
      var valid := SystemCall();
      if !valid { return OTHER; }
      var r := RemoveJournal();
      o := OfWrite(r);
    }

    /** Makes the new configuration durable, then reads it again. */
    method ConfirmConfig(record: Record) returns (o: Outcome)
      requires Valid() && journal.file == Some(record) && Readable(See(W())) && resolved == record.resolved
      modifies this, config
      ensures Valid() && Recovering() && KeepsInv()
      ensures if o.Ok? then confirmed && IsNew(record, config.file) else confirmed == old(confirmed)
      ensures alone ==> config.file == old(config.file) && config.maybe <= old(config.maybe)
      ensures alone && o.Ok? ==> Durable(W().cfg)
      ensures healthy && alone && IsNew(record, old(config.file)) ==> o.Ok?
    {
      hide AllEnabled, Exec, Inv, TokenSafe, NewToken, NewGeneration, NoneNew, IsOld;
      var synced := SyncConfigFile();
      if !synced { return Failed(false, true); }
      Others();
      var readable := SystemCall();
      if !readable { return OTHER; }
      if StateOf(config.file) != NewState(record) { return PROFILE_CHANGED; }
      MarkConfirmed(record);
      o := Ok;
    }

    /** The new configuration was read again after its sync. */
    method MarkConfirmed(record: Record)
      requires Valid() && journal.file == Some(record) && Readable(See(W()))
      requires RollsForward(record, See(W())) && AllNew(record, W())
      modifies this
      ensures Valid() && Recovering() && KeepsInv()
      ensures W() == old(W()).(confirmed := true)
    {
      hide AllEnabled, Exec, Inv, TokenSafe, NewToken, NewGeneration, NoneNew, IsOld, Unused;
      Log(Confirm, W());
    }

    /** The rest of the new-configuration branch, once the configuration is confirmed. */
    method InstallAndDrop(record: Record) returns (o: Outcome)
      requires Valid() && journal.file == Some(record) && Readable(See(W())) && confirmed
      modifies this, config, cache, journal
      ensures Valid() && Recovering() && KeepsInv()
      ensures alone ==> config.State() == old(config.State())
      ensures journal.file == old(journal.file) || journal.file.None?
      ensures o.Ok? ==>
        && journal.State() == Cell(None, {None}) && !confirmed
        && AtNext(record, cache.file) && Durable(W().cch)
      ensures cache.file == old(cache.file) || TowardNext(record, old(cache.file)) == Put(cache.file)
      ensures healthy && !old(journal.linked) ==>
        match TowardNext(record, old(cache.file))
        case Done => o.Ok? && cache.file == old(cache.file)
        case Put(e) => o.Ok? && cache.file == e
        case Refuse => !o.Ok? && cache.file == old(cache.file) && journal.file == old(journal.file)
    {
      hide AllEnabled, Exec, Inv, TokenSafe, NewToken, NewGeneration;
      hide Effect, NoneNew, AllNew, TowardNext, TowardPrevious;
      Others();
      o := InstallNextEntry(record);
      if !o.Ok? { return; }
      Others();
      o := DeleteJournal();
    }

    /** The new-configuration branch: make it durable, look again, roll the cache forward. */
    method RollForward(record: Record) returns (o: Outcome)
      requires Valid() && journal.file == Some(record) && Readable(See(W()))
      requires resolved == record.resolved && !confirmed
      modifies this, config, cache, journal
      ensures Valid() && Recovering() && KeepsInv()
      ensures alone ==> config.file == old(config.file) && config.maybe <= old(config.maybe)
      ensures journal.file == old(journal.file) || journal.file.None?
      ensures o.Ok? ==>
        && journal.State() == Cell(None, {None}) && !confirmed
        && AtNext(record, cache.file) && Durable(W().cch)
        && (alone ==> Durable(W().cfg) && IsNew(record, config.file))
      ensures cache.file == old(cache.file) || TowardNext(record, old(cache.file)) == Put(cache.file)
      ensures healthy && alone && RollsForward(record, old(See(W()))) && !old(journal.linked) ==>
        See(W()) == Final(See(old(W()))) && (o.Ok? <==> Final(See(old(W()))).jnl.None?)
    {
      hide AllEnabled, Exec, Inv, TokenSafe, NewToken, NewGeneration;
      hide Final, Effect, AllNew, NoneNew, Unused, TowardPrevious;
      FinalByStep(See(W()));
      Others();
      o := ConfirmConfig(record);
      if !o.Ok? { return; }
      o := InstallAndDrop(record);
    }

    /** The other branches: put the cache back, then drop the journal. */
    method RollBack(record: Record) returns (o: Outcome)
      requires Valid() && journal.file == Some(record) && Readable(See(W()))
      requires !RollsForward(record, See(W())) && !confirmed
      modifies this, config, cache, journal
      ensures Valid() && Recovering()
      ensures old(NoneNew(attempt, W())) ==> KeepsInv()
      ensures alone ==> config.State() == old(config.State())
      ensures journal.file == old(journal.file) || journal.file.None?
      ensures o.Ok? ==>
        && journal.State() == Cell(None, {None}) && !confirmed
        && AtPrevious(record, cache.file) && Durable(W().cch)
      ensures cache.file == old(cache.file) || TowardPrevious(record, old(cache.file)) == Put(cache.file)
      ensures healthy && alone && !old(cache.linked) && !old(journal.linked) ==>
        See(W()) == Final(See(old(W()))) && (o.Ok? <==> Final(See(old(W()))).jnl.None?)
    {
      hide AllEnabled, Exec, Inv, TokenSafe, Enabled, Effect;
      hide Final, AllNew, Unused, TowardNext;
      FinalByStep(See(W()));
      Others();
      o := RestorePreviousEntry(record);
      if !o.Ok? { return; }
      Others();
      DropsUndone(W());
      o := DeleteJournal();
    }

    /** A journal was found and is well formed: compare the configuration with both of its states. */
    method RecoverRecord(record: Record) returns (o: Outcome)
      requires Valid() && journal.file == Some(record) && Readable(See(W())) && !confirmed
      modifies this, config, cache, journal
      ensures Valid() && Recovering()
      ensures Unchanged(o) && attempt !in reverted ==> KeepsInv()
      ensures alone ==> config.file == old(config.file) && config.maybe <= old(config.maybe)
      ensures journal.file == old(journal.file) || journal.file.None?
      ensures o.Ok? ==>
        && journal.State() == Cell(None, {None}) && Durable(W().cch) && resolved == record.resolved && !confirmed
        && (if IsNew(record, old(config.file)) then AtNext(record, cache.file)
            else IsOld(record, old(config.file)) && AtPrevious(record, cache.file))
        && (alone && IsNew(record, config.file) ==> Durable(W().cfg))
      ensures cache.file == old(cache.file) || CacheStepFor(record, old(See(W()))) == Put(cache.file)
      ensures healthy && alone && !old(cache.linked) && !old(journal.linked) ==>
        && See(W()) == Final(See(old(W())))
        && (o.Ok? <==>
              && journal.file.None? && resolved == record.resolved
              && (IsNew(record, config.file) || IsOld(record, config.file)))
    {
      hide AllEnabled, Exec, Inv, TokenSafe, NewToken, NewGeneration, Final;
      if resolved != record.resolved {
        o := RollBack(record);
        o := Join(PROFILE_CHANGED, o);
        return;
      }
      var state := StateOf(config.file);
      if state == NewState(record) {
        o := RollForward(record);
      } else if state == record.before {
        if Inv(W()) && attempt !in reverted {
          OldMeansNoneNew(W(), record);
        }
        o := RollBack(record);
      } else {
        o := RollBack(record);
        o := Join(PROFILE_CHANGED, o);
      }
    }

    /** recoverNativeOAuthTransaction, with the profile lock held. */
    method Recover(name: nat) returns (o: Outcome)
      requires Valid() && name == profile && !confirmed
      modifies this, config, cache, journal
      ensures Valid() && Recovering()
      // nil: no visible journal; and if one was found it is durably gone, and
      // the cache durably is on the side that the configuration was found on.
      ensures o.Ok? ==> journal.file.None? && !confirmed
      ensures old(journal.file).None? ==>
        && W() == old(W()) && run == old(run) && (healthy ==> o.Ok?)
        && journal.linked == old(journal.linked) && cache.linked == old(cache.linked)
      ensures o.Ok? && old(journal.file).Some? ==>
        var r := old(journal.file).value;
        && journal.State() == Cell(None, {None}) && Durable(W().cch) && resolved == r.resolved
        && (AtNext(r, cache.file) || AtPrevious(r, cache.file))
        && (alone ==> if IsNew(r, config.file) then Durable(W().cfg) && AtNext(r, cache.file)
                      else IsOld(r, config.file) && AtPrevious(r, cache.file))
      // A saved login that nobody takes back is rolled forward.
      ensures
        && o.Ok? && old(journal.file) == Some(attempt)
        && renewed && !IsOld(attempt, old(config.file)) && attempt !in reverted
        ==> AtNext(attempt, cache.file)
      // In every state that the protocol can reach, nil means agreement, and no
      // power loss can end it, unless somebody has taken the saved login back; the
      // invariant is lost only then and under a foreign configuration.
      ensures Unchanged(o) && attempt !in reverted ==> KeepsInv()
      ensures o.Ok? && attempt !in reverted && old(Inv(W())) ==> Agreement(attempt, W())
      ensures alone ==> config.file == old(config.file) && config.maybe <= old(config.maybe)
      // Nobody else's entry is touched, and an entry already in place keeps its contents.
      ensures cache.file == old(cache.file) ||
              (Readable(old(See(W())))
               && (TowardNext(old(journal.file).value, old(cache.file)) == Put(cache.file)
                   || TowardPrevious(old(journal.file).value, old(cache.file)) == Put(cache.file)))
      // Without a fault or interference it ends in the state that `Final` names, and
      // reports success unless the journal cannot be used or the configuration is foreign.
      ensures healthy && alone && !old(cache.linked) && !old(journal.linked) ==>
        && See(W()) == Final(See(old(W())))
        && (o.Ok? <==>
              && journal.file.None?
              && (old(journal.file).Some? ==>
                    && resolved == old(journal.file).value.resolved
                    && (IsNew(old(journal.file).value, config.file) || IsOld(old(journal.file).value, config.file))))
    {
      hide AllEnabled, Exec, Inv, TokenSafe, NewToken, NewGeneration, Agreement;
      o := OTHER;
      var readable := SystemCall();
      if readable && journal.file.None? {
        o := Ok;
      } else if readable && ValidRecord(journal.file.value) && journal.file.value.profile == name {
        var loaded := SystemCall();
        if loaded {
          Others();
          o := RecoverRecord(journal.file.value);
        }
      }
      if o.Ok? && Inv(W()) {
        QuietMeansAgreement(W());
      }
    }

    // ----------------------------------------------------------------
    // Configure.

    /** The random login generation, and with it its digest, appears nowhere on the disk yet. */
    predicate NewToDisk(generation: Generation, login: Generation)
      reads this, config, cache, journal
    {
      && generation !in issued && generation !in unsettled && pending.None?
      && (login != 0 ==> Unused(login, config.State()))
      && NewGeneration(generation, W())
    }

    /** The profile is still the one seen before the login. */
    predicate SameProfile(state: ProfileState)
      reads this, config
    {
      var current := StateOf(config.file);
      current.configExisted == state.configExisted && current.found == state.found && current.auth == state.auth
    }

    /** The log record of the attempt is durable, and nothing contradicts it. */
    predicate Logged()
      reads this, config, cache, journal
    {
      && journal.State() == Cell(Some(attempt), {Some(attempt)})
      && Readable(See(W())) && attempt.resolved == resolved && writing && !confirmed
      && (attempt.previous.Some? ==> attempt.previous.value.generation != attempt.next.generation)
      && NoneNew(attempt, W())
    }

    /** commitPreparedNativeOAuthTransaction */
    method CommitJournal(prepared: PrivateReplace<Record>, record: Record, size: nat) returns (o: Outcome)
      requires Valid() && prepared.Valid() && prepared.target == journal
      requires ValidRecord(record) ==> Enabled(WriteJournal(record), W())
      modifies this, journal, prepared
      ensures Valid() && KeepsTokens() && prepared.Valid() && KeepsInv() && old(reverted) <= reverted
      ensures config.State() == old(config.State()) && cache.State() == old(cache.State())
      ensures issued == old(issued) && pending == old(pending)
      ensures Unchanged(o) && (journal.linked ==> old(journal.linked))
      ensures o.Ok? ==>
        && journal.State() == Cell(Some(record), {Some(record)}) && !journal.linked
        && attempt == record && ValidRecord(record) && writing && !confirmed
      ensures healthy && ValidRecord(record) && old(prepared.open) && size <= prepared.reserve ==> o.Ok?
      ensures healthy && !o.Ok? ==> journal.State() == old(journal.State())
    {
      hide AllEnabled, Exec, Inv, TokenSafe;
      if !ValidRecord(record) { return OTHER; }
      var w := W();
      var a := WriteJournal(record);
      var steps, r;
      r, steps := prepared.Commit(record, size);
      if |steps| >= 1 {
        Log(a, w);
        w := Effect(a, w);
      }
      if |steps| == 2 {
        Log(SyncJournal, w);
      }
      o := OfWrite(r);
    }

    /** The commit of the prepared cache entry, once it has been compared. */
    method CommitEntry(prepared: PrivateReplace<Entry>, entry: Entry, size: nat) returns (r: WriteResult)
      requires Valid() && prepared.Valid() && prepared.target == cache
      requires Enabled(CommitNext, W()) && Effect(CommitNext, W()) == W().(cch := Renamed(W().cch, Some(entry)))
      modifies this, cache, prepared
      ensures Valid() && prepared.Valid() && CacheWritten(CommitNext, r)
      ensures if r == OtherError then cache.linked == old(cache.linked) else !cache.linked
      ensures healthy && old(prepared.open) && size <= prepared.reserve ==> r == Nil
      ensures healthy ==> r != PostCommitError
    {
      hide AllEnabled, Exec, Inv, TokenSafe, NewToken, NewGeneration, Enabled, Effect;
      var w := W();
      var steps;
      r, steps := prepared.Commit(entry, size);
      if |steps| >= 1 {
        Log(CommitNext, w);
        w := Effect(CommitNext, w);
        SyncCacheOnly(w);
      }
      if |steps| == 2 {
        Log(SyncCache, w);
      }
    }

    /** commitPreparedCredentialCacheEntryIfGeneration and ...IfMissing */
    method CommitCache(prepared: PrivateReplace<Entry>, previous: Option<Entry>, entry: Entry, size: nat)
      returns (o: Outcome)
      requires Valid() && prepared.Valid() && prepared.target == cache
      requires journal.State() == Cell(Some(attempt), {Some(attempt)}) && attempt.next == entry && writing
      requires cache.file == previous == attempt.previous && entry.mode == OAuth
      requires entry.generation in issued && issued[entry.generation] == entry.refresh
      modifies this, cache, prepared
      ensures Valid() && KeepsTokens() && prepared.Valid() && KeepsInv() && old(reverted) <= reverted
      ensures config.State() == old(config.State()) && journal.State() == old(journal.State())
      ensures attempt == old(attempt) && issued == old(issued) && writing && confirmed == old(confirmed)
      ensures o.Ok? ==>
        && cache.State() == Cell(Some(entry), {Some(entry)}) && !cache.linked
        && (previous.Some? ==> previous.value.mode == OAuth && previous.value.generation != 0)
      ensures !o.Ok? ==>
        cache.file == previous || (cache.file == Some(entry) && (previous.Some? ==> previous.value.mode == OAuth))
      ensures healthy && !o.Ok? ==> cache.file == previous && cache.linked == old(cache.linked)
      // An entry that a CloudSSO login put there is reported, not replaced.
      ensures healthy && previous.Some? && previous.value.generation != 0 && previous.value.mode != OAuth ==>
        o == PROFILE_CHANGED
      ensures
        && healthy && old(prepared.open) && size <= prepared.reserve
        && (previous.Some? ==> previous.value.mode == OAuth && previous.value.generation != 0)
        ==> o.Ok?
    {
      hide AllEnabled, Exec, Inv, TokenSafe, Enabled, Effect;
      if previous.Some? {
        if previous.value.generation == 0 { return OTHER; }
        var readable := SystemCall();
        if !readable || cache.file.None? { return OTHER; }
        var current := cache.file.value;
        if current.mode != entry.mode || current.generation != previous.value.generation { return PROFILE_CHANGED; }
      } else {
        var looked := SystemCall();
        if !looked { return OTHER; }
        if cache.file.Some? { return PROFILE_CHANGED; }
      }
      CommitsNext(W());
      SyncCacheOnly(Effect(CommitNext, W()));
      var r := CommitEntry(prepared, entry, size);
      o := OfWrite(r);
    }

    /** AtomicWrite of the configuration with the new login in it. */
    method ReplaceConfig(d: Doc) returns (r: WriteResult)
      requires Valid() && Enabled(WriteConfig(d), W())
      modifies this, config
      ensures Valid() && KeepsTokens() && KeepsInv()
      ensures
        var written := old(W()).(cfg := Renamed(old(W()).cfg, Some(d)), renewed := true);
        match r
        case Nil => W() == written.(cfg := Settled(written.cfg))
        case PostCommitError => W() == written || W() == written.(cfg := Settled(written.cfg))
        case OtherError => W() == old(W())
      ensures healthy ==> r == Nil
    {
      hide AllEnabled, Exec, Inv, TokenSafe, NewToken, NewGeneration;
      var w := W();
      var steps;
      r, steps := config.AtomicWritePrivate(d);
      if |steps| >= 1 {
        Log(WriteConfig(d), w);
        w := Effect(WriteConfig(d), w);
      }
      if |steps| == 2 {
        Log(SyncConfig, w);
      }
    }

    /**
     * Store.SaveContext with the one pending OAuth mutation: under the lock of the
     * configuration file, compare with what is there, then replace it.  `rest` is
     * what the save makes of the other settings (module ConfigStore).
     */
    method SaveConfig(state: ProfileState, auth: Digest, source: Generation) returns (r: WriteResult, changed: bool)
      requires Valid() && Logged()
      requires attempt.before == state && NewState(attempt) == ProfileState(true, true, auth.login, auth)
      requires state.login == state.auth.login
      requires Durable(W().cch) && AtNext(attempt, cache.file)
      modifies this, config
      ensures Valid() && KeepsTokens() && KeepsInv()
      ensures attempt == old(attempt) && reverted == old(reverted)
      ensures writing == old(writing) && confirmed == old(confirmed)
      ensures r != OtherError ==>
        && config.file.Some? && config.file.value.found && config.file.value.auth == auth
        && config.file.value.source == source && IsNew(attempt, config.file) && renewed
      ensures r == Nil ==> Durable(W().cfg)
      ensures r == OtherError ==> config.State() == old(config.State())
      // The save of another process since the comparison at the lock is never overwritten.
      ensures old(!SameProfile(state)) ==> r == OtherError
      ensures changed ==> r == OtherError && old(!SameProfile(state))
      ensures healthy ==> if old(SameProfile(state)) then r == Nil else changed
    {
      hide AllEnabled, Exec, Inv, TokenSafe, NewToken, NewGeneration;
      changed := false;
      var readable := SystemCall();
      if !readable { return OtherError, false; }
      if !SameProfile(state) { return OtherError, true; }
      var rest: nat := *;
      r := ReplaceConfig(Doc(true, auth, source, rest));
    }

    /** The token service has issued the first refresh token of a new login generation. */
    method Authorize(entry: Entry, login: Generation)
      requires Valid() && entry.generation !in issued && entry.generation !in unsettled && pending.None?
      requires login != 0 ==> Unused(login, W().cfg)
      modifies this
      ensures Valid() && run == old(run) + [Login(entry.generation, entry.refresh, login)]
      ensures KeepsInv() && KeepsTokens()
      ensures W() == old(W()).(issued := issued, drawn := login)
      ensures issued == old(issued)[entry.generation := entry.refresh]
    {
      hide AllEnabled, Exec, Inv, TokenSafe;
      Log(Login(entry.generation, entry.refresh, login), W());
    }

    /** Look at profile and cache again, then write the log record. */
    method WriteAhead(
      state: ProfileState, storePath: nat, auth: Digest, entry: Entry, prepared: PrivateReplace<Record>, size: nat)
      returns (o: Outcome, previous: Option<Entry>)
      requires Valid() && prepared.Valid() && prepared.target == journal
      requires entry.mode == OAuth && journal.file.None? && state.login == state.auth.login
      requires entry.generation in issued && issued[entry.generation] == entry.refresh
      requires drawn == auth.login && (drawn != 0 ==> Unused(drawn, W().cfg))
      requires NewGeneration(entry.generation, W()) && pending.None?
      modifies this, config, journal, prepared
      ensures Valid() && KeepsTokens() && prepared.Valid() && KeepsInv() && old(reverted) <= reverted
      ensures alone ==> config.State() == old(config.State())
      ensures cache.State() == old(cache.State()) && issued == old(issued) && pending == old(pending)
      ensures o.Ok? ==>
        && previous == cache.file && Logged() && !journal.linked && attempt.before != NewState(attempt)
        && attempt == Record(profile, resolved, state, auth.login, auth, previous, entry)
      ensures old(!SameProfile(state)) && alone ==> !o.Ok? && journal.State() == old(journal.State())
      ensures healthy && !o.Ok? ==> journal.State() == old(journal.State())
      ensures alone && o.Ok? ==> SameProfile(state)
      ensures journal.linked ==> old(journal.linked)
      ensures healthy && (old(!SameProfile(state)) || storePath != resolved) ==> o == PROFILE_CHANGED
      ensures storePath != resolved ==> !o.Ok? && journal.State() == old(journal.State())
      ensures
        && healthy && old(SameProfile(state)) && storePath == resolved && auth.login != 0 && entry.generation != 0
        && (cache.file.Some? ==> cache.file.value.generation != 0)
        && old(prepared.open) && size <= prepared.reserve
        ==> o.Ok?
    {
      hide AllEnabled, Exec, Inv, TokenSafe;
      previous := None;
      var reloaded := SystemCall();
      if !reloaded { return OTHER, previous; }
      if resolved != storePath || !SameProfile(state) { return PROFILE_CHANGED, previous; }
      Others();
      var readable := SystemCall();
      if !readable { return OTHER, previous; }
      previous := cache.file;
      var record := Record(profile, resolved, state, auth.login, auth, previous, entry);
      o := CommitJournal(prepared, record, size);
    }

    /** The configuration durably holds this login. */
    predicate Saved(auth: Digest, source: Generation)
      reads this, config
    {
      && config.maybe == {config.file} && config.file.Some? && config.file.value.found
      && config.file.value.auth == auth && config.file.value.source == source
    }

    /** The cache durably holds the next entry, the journal is durably gone, and the login is saved. */
    predicate InForce(auth: Digest, source: Generation)
      reads this, config, cache, journal
    {
      && cache.State() == Cell(Some(attempt.next), {Some(attempt.next)})
      && journal.State() == Cell(None, {None})
      && (alone ==> Saved(auth, source))
    }

    /** Recovery behind the save of the configuration. */
    method Finish(auth: Digest, source: Generation) returns (o: Outcome)
      requires Valid() && Readable(See(W())) && attempt.resolved == resolved && !confirmed
      requires journal.State() == Cell(Some(attempt), {Some(attempt)})
      requires cache.State() == Cell(Some(attempt.next), {Some(attempt.next)})
      requires attempt.previous.Some? ==> attempt.previous.value.generation != attempt.next.generation
      requires attempt.before != NewState(attempt) && IsNew(attempt, config.file) && renewed && Saved(auth, source)
      modifies this, config, cache, journal
      ensures Valid() && KeepsTokens() && attempt == old(attempt) && old(reverted) <= reverted
      ensures Unchanged(o) && attempt !in reverted ==> KeepsInv()
      ensures o.Ok? ==> journal.State() == Cell(None, {None})
      ensures o.Ok? && attempt !in reverted ==>
        InForce(auth, source) && (old(Inv(W())) ==> Agreement(attempt, W()))
      ensures healthy && alone && !old(journal.linked) && !old(cache.linked) ==> o.Ok?
    {
      hide AllEnabled, Exec, Inv, TokenSafe, NewToken, NewGeneration, Agreement;
      FinalByStep(See(W()));
      Others();
      o := Recover(profile);
    }

    /**
     * Recovery has run behind the log record, and its error is part of the
     * outcome; without it, a configuration that may be in place is reported.
     */
    ghost predicate FollowedUp(o: Outcome, recovery: Option<Outcome>)
      reads this, config, journal
    {
      match recovery
      case Some(recovered) => Join(o, recovered) == o && (recovered.Ok? ==> journal.file.None?)
      case None => o == Failed(false, true) && IsNew(attempt, config.file)
    }

    /** Recovery behind a log record whose configuration was not saved. */
    method Undo() returns (o: Outcome)
      requires Valid() && Logged()
      requires
        || cache.file == attempt.previous
        || (cache.file == Some(attempt.next) && (attempt.previous.Some? ==> attempt.previous.value.mode == OAuth))
      modifies this, config, cache, journal
      ensures Valid() && KeepsTokens() && attempt == old(attempt) && old(reverted) <= reverted
      ensures Unchanged(o) && attempt !in reverted ==> KeepsInv()
      ensures o.Ok? ==> journal.State() == Cell(None, {None})
      ensures healthy && alone && !old(journal.linked) && !old(cache.linked) ==>
        config.file == old(config.file) && cache.file == attempt.previous && journal.file.None?
    {
      hide AllEnabled, Exec, Inv, TokenSafe, NewToken, NewGeneration, Agreement;
      FinalByStep(See(W()));
      assert !IsNew(attempt, config.file);
      o := Recover(profile);
    }

    /** The configuration save, and the recovery that finishes or undoes the attempt. */
    method SaveAndFinish(state: ProfileState, auth: Digest, source: Generation)
      returns (o: Outcome, ghost recovery: Option<Outcome>)
      requires Valid() && Logged()
      requires attempt.before == state && NewState(attempt) == ProfileState(true, true, auth.login, auth)
      requires state.login == state.auth.login && attempt.before != NewState(attempt)
      requires attempt.previous.Some? ==> attempt.previous.value.mode == OAuth
      requires cache.State() == Cell(Some(attempt.next), {Some(attempt.next)})
      modifies this, config, cache, journal
      ensures Valid() && KeepsTokens() && attempt == old(attempt) && old(reverted) <= reverted
      ensures Unchanged(o) && attempt !in reverted ==> KeepsInv()
      ensures o.Ok? ==> journal.State() == Cell(None, {None})
      ensures FollowedUp(o, recovery)
      ensures o.Ok? && attempt !in reverted ==>
        InForce(auth, source) && (old(Inv(W())) ==> Agreement(attempt, W()))
      ensures healthy && alone && !old(journal.linked) && !old(cache.linked) && old(SameProfile(state)) ==> o.Ok?
      // A profile that somebody changed since the log record is left as it is,
      // and the cache goes back to the previous entry.
      ensures healthy && alone && !old(journal.linked) && !old(cache.linked) && old(!SameProfile(state)) ==>
        && o.Failed? && o.changed && config.file == old(config.file)
        && cache.file == attempt.previous && journal.file.None?
    {
      hide AllEnabled, Exec, Inv, TokenSafe, NewToken, NewGeneration, Agreement, AtPrevious, ValidRecord, Final;
      Others();
      var applied := SystemCall();
      if !applied {
        var undone := Undo();
        return Join(OTHER, undone), Some(undone);
      }
      Others();
      var saved, changed := SaveConfig(state, auth, source);
      if saved == Nil {
        o := Finish(auth, source);
        recovery := Some(o);
      } else {
        recovery := None;
        o := if changed then PROFILE_CHANGED else OfWrite(saved);
        // nativeOAuthConfigSaveFailure: a configuration that may be in place is left to the next run.
        if saved == OtherError {
          var undone := Undo();
          recovery := Some(undone);
          o := Join(o, undone);
        }
      }
    }

    /** Everything behind the durable log record; an early failure is undone by recovery. */
    method CommitAttempt(
      state: ProfileState, auth: Digest, previous: Option<Entry>, entry: Entry, prepared: PrivateReplace<Entry>,
      size: nat)
      returns (o: Outcome, ghost recovery: Option<Outcome>)
      requires Valid() && Logged() && prepared.Valid() && prepared.target == cache
      requires attempt.before == state && NewState(attempt) == ProfileState(true, true, auth.login, auth)
      requires state.login == state.auth.login && attempt.before != NewState(attempt)
      requires attempt.next == entry && attempt.previous == previous == cache.file && entry.mode == OAuth
      requires entry.generation in issued && issued[entry.generation] == entry.refresh
      modifies this, config, cache, journal, prepared
      ensures Valid() && KeepsTokens() && attempt == old(attempt) && old(reverted) <= reverted
      ensures Unchanged(o) && attempt !in reverted ==> KeepsInv()
      ensures o.Ok? ==> journal.State() == Cell(None, {None})
      // No failure leaves without recovery, but for a configuration that may be in place.
      ensures FollowedUp(o, recovery)
      ensures o.Ok? && attempt !in reverted ==>
        InForce(auth, entry.generation) && (old(Inv(W())) ==> Agreement(attempt, W()))
      ensures
        && healthy && alone && !old(journal.linked) && old(prepared.open) && size <= prepared.reserve
        && (previous.Some? ==> previous.value.mode == OAuth) && old(SameProfile(state))
        ==> o.Ok?
      // Without faults a failure, at the cache or at the configuration, is undone:
      // the entry is the one from before, and the log record is gone.
      ensures healthy && alone && !old(journal.linked) && !old(cache.linked) && !o.Ok? ==>
        && journal.file.None? && AtPrevious(attempt, cache.file)
        && cache.file == previous && config.file == old(config.file)
      // That is how an entry of another mode ends.
      ensures healthy && previous.Some? && previous.value.mode != OAuth ==> o.Failed? && o.changed
    {
      hide AllEnabled, Exec, Inv, TokenSafe, NewToken, NewGeneration, Agreement;
      o := CommitCache(prepared, previous, entry, size);
      if !o.Ok? {
        var undone := Undo();
        return Join(o, undone), Some(undone);
      }
      o, recovery := SaveAndFinish(state, auth, entry.generation);
    }

    /** The answered login, and the recovery of whatever an earlier one left behind. */
    method Start(entry: Entry, login: Generation) returns (o: Outcome)
      requires Valid() && NewToDisk(entry.generation, login) && !confirmed
      modifies this, config, cache, journal
      ensures Valid() && KeepsTokens() && attempt == old(attempt) && old(reverted) <= reverted
      ensures Unchanged(o) && attempt !in reverted ==> KeepsInv()
      ensures o.Ok? ==>
        && journal.file.None? && !confirmed && drawn == login && (drawn != 0 ==> Unused(drawn, W().cfg))
        && entry.generation in issued && issued[entry.generation] == entry.refresh
        && NewGeneration(entry.generation, W()) && pending.None?
      ensures old(journal.file).None? ==>
        && (healthy ==> o.Ok?)
        && config.State() == old(config.State()) && cache.State() == old(cache.State())
        && journal.State() == old(journal.State())
        && journal.linked == old(journal.linked) && cache.linked == old(cache.linked)
    {
      hide AllEnabled, Exec, Inv, TokenSafe, Agreement, Final, See;
      Authorize(entry, login);
      o := Recover(profile);
    }

    /**
     * ConfigureOAuthProfile from the moment it holds the profile lock.  The
     * login has been answered with `entry`; `seen` and `storePath` are what the
     * configuration looked like before it.
     */
    method Configure(
      seen: Option<Doc>, storePath: nat, auth: Digest, entry: Entry,
      preparedJournal: PrivateReplace<Record>, recordSize: nat,
      preparedCache: PrivateReplace<Entry>, entrySize: nat)
      returns (o: Outcome)
      requires Valid() && preparedJournal.Valid() && preparedCache.Valid()
      requires preparedJournal.target == journal && preparedCache.target == cache
      requires preparedJournal as object != preparedCache
      requires entry.mode == OAuth && NewToDisk(entry.generation, auth.login) && !confirmed
      modifies this, config, cache, journal, preparedJournal, preparedCache
      ensures Valid() && KeepsTokens() && !confirmed
      // nil: the new login is in force, durably in both files unless somebody has
      // changed the configuration since, and no journal is left.
      ensures o.Ok? ==>
        && journal.State() == Cell(None, {None})
        && attempt.next == entry && NewState(attempt) == ProfileState(true, true, auth.login, auth)
        && (attempt !in reverted ==> InForce(auth, entry.generation))
      // The invariant, and with it agreement after every power loss, is kept unless
      // the profile is reported changed, or somebody went back behind this login or
      // behind the one that was recovered first.
      ensures Unchanged(o) && old(attempt) !in reverted && attempt !in reverted ==> KeepsInv()
      ensures o.Ok? && old(attempt) !in reverted && attempt !in reverted && old(Inv(W())) ==> Agreement(attempt, W())
      // Without faults, and if nobody changed the profile meanwhile, it is nil.
      ensures
        && healthy && alone && old(journal.file).None? && old(SameProfile(StateOf(seen))) && storePath == resolved
        && auth.login != 0 && entry.generation != 0
        && (old(cache.file).Some? ==> old(cache.file).value.mode == OAuth && old(cache.file).value.generation != 0)
        && old(preparedJournal.open) && old(preparedCache.open)
        && recordSize <= preparedJournal.reserve && entrySize <= preparedCache.reserve
        ==> o.Ok?
      // A profile changed during the login, or a path that leads elsewhere by now, is left alone.
      ensures
        && healthy && old(journal.file).None? && alone
        && (old(!SameProfile(StateOf(seen))) || storePath != resolved) ==>
        && o == PROFILE_CHANGED && config.State() == old(config.State())
        && cache.State() == old(cache.State()) && journal.State() == old(journal.State())
      // Without faults no error leaves anything behind, wherever it came from.
      ensures
        && healthy && alone && old(journal.file).None? && !old(journal.linked) && !old(cache.linked) && !o.Ok?
        ==> journal.file.None? && cache.file == old(cache.file) && config.file == old(config.file)
    {
      hide AllEnabled, Exec, Inv, TokenSafe, Agreement, Unused, ReleaseLock;
      hide NoneNew, FollowedUp, AtPrevious, ValidRecord;
      o := Start(entry, auth.login);
      if o.Ok? {
        Others();
        var previous;
        o, previous := WriteAhead(StateOf(seen), storePath, auth, entry, preparedJournal, recordSize);
        if o.Ok? {
          ghost var recovery;
          o, recovery := CommitAttempt(StateOf(seen), auth, previous, entry, preparedCache, entrySize);
        }
      }
      Release();
      if o.Ok? && Inv(W()) {
        QuietMeansAgreement(W());
      }
    }
  }
}
