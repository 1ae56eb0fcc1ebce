/**
 * pkg/aliyun/credential_profile_refresh.go: the native OAuth provider, which
 * spends a one-time refresh token and must persist its successor before it
 * uses the access token that came with it.  Other processes save the
 * configuration between its steps, as in module OAuthDisk.
 */
module OAuthRefresh {
  import opened Common
  import opened FilePrimitives
  import opened OAuthProtocol
  import opened OAuthTokens
  import opened OAuthDisk

  const REFRESH_WINDOW := 180   // credentialRefreshWindow, seconds
  const ACCESS_MARGIN := 1200
  const CACHE_LIMIT := 0x10_0000

  datatype Sts = Sts(key: Token, expires: int)

  datatype Tokens = Tokens(access: Token, refresh: Token, accessExpire: int)

  datatype Acquired = Snapshot(sts: Sts) | Error(outcome: Outcome)

  /** cachedProfileCredentials: complete and not yet expired. */
  function CachedSts(e: Entry, now: int): Option<Sts> {
    if e.sts != 0 && e.stsExpire > now then Some(Sts(e.sts, e.stsExpire)) else None
  }

  predicate Usable(s: Option<Sts>, now: int) {
    s.Some? && s.value.expires - now > REFRESH_WINDOW
  }

  /** The refresh token is spent only if the access token is missing or close to its end. */
  predicate NeedsRotation(e: Entry, now: int) {
    e.refresh != 0 && (e.access == 0 || e.accessExpire == 0 || e.accessExpire - now <= ACCESS_MARGIN)
  }

  /** The rotated entry is stored, and its sync settles the generation. */
  lemma StoreRotated(e: Entry, w: World)
    requires w.jnl.now.None? && Owns(e, w.cch.now) && w.pending == Some(e.generation) && Fresh(w, e)
    ensures
      var w1 := w.(cch := Renamed(w.cch, Some(e)));
      && Enabled(RefreshCache(e), w) && Effect(RefreshCache(e), w) == w1
      && Enabled(SyncCache, w1)
      && Effect(SyncCache, w1) ==
         w1.(cch := Settled(w1.cch), pending := None, unsettled := w.unsettled - {e.generation})
  {
  }

  /** The cache does not carry a token that is new to the disk. */
  lemma NewTokenDiffers(token: Token, w: World)
    requires NewToken(token, w) && w.cch.now in w.cch.maybe && w.cch.now.Some?
    ensures w.cch.now.value.refresh != token
  {
  }

  class Provider {
    const disk: Disk
    const generation: Generation
    var cacheEntry: Option<Entry>
    var cached: Option<Sts>

    constructor (disk: Disk, generation: Generation)
      ensures this.disk == disk && this.generation == generation && cached == None
    {
      this.disk, this.generation, cacheEntry, cached := disk, generation, None, None;
    }

    ghost predicate Valid()
      reads this, disk, disk.config, disk.cache, disk.journal
    {
      disk.Valid()
    }

    /** The lock is held, no journal is visible, and the cache holds this provider's own entry. */
    ghost predicate Owner()
      reads this, disk, disk.config, disk.cache, disk.journal
    {
      && disk.journal.file.None?
      && cacheEntry.Some? && disk.cache.file == cacheEntry
      && cacheEntry.value.generation == generation && cacheEntry.value.mode == OAuth
    }

    /** No access token has been spent. */
    twostate predicate SpendsNothing()
      reads disk
    {
      old(disk.run) <= disk.run && forall i :: |old(disk.run)| <= i < |disk.run| ==> !disk.run[i].Exchange?
    }

    /**
     * What a refresh from entry `e` may spend, in seconds.  A rotation is asked
     * for exactly when there is a refresh token and the access token is missing,
     * of unknown end, or within twenty minutes of it.  The access token that is
     * exchanged came with the rotation, or lasts longer than that, or cannot be
     * renewed; and an expired refresh token ends the run before either.
     */
    twostate predicate SpendsWithNeed(e: Entry, now: int, ok: bool)
      reads this, disk
    {
      var rotated := disk.issued != old(disk.issued);
      var needed := e.refresh != 0 && (e.access == 0 || e.accessExpire == 0 || e.accessExpire - now <= 1200);
      && (rotated ==> needed) && (ok && needed ==> rotated)
      && (e.refresh != 0 && 0 < e.refreshExpire <= now ==> !ok && !rotated && SpendsNothing())
      && (forall i :: |old(disk.run)| <= i < |disk.run| && disk.run[i].Exchange? ==>
            && cacheEntry.Some? && disk.run[i].access == cacheEntry.value.access != 0
            && (if rotated then cacheEntry.value.accessExpire > now
                else cacheEntry.value.access == e.access && (e.refresh == 0 || e.accessExpire - now > 1200)))
    }

    /** What a snapshot rests on: it is in memory, and beside its tokens in the cache. */
    predicate Holds(sts: Sts)
      reads this, disk, disk.cache
    {
      && cached == Some(sts) && disk.cache.file == cacheEntry && cacheEntry.Some?
      && cacheEntry.value.sts == sts.key && cacheEntry.value.stsExpire == sts.expires
      && cacheEntry.value.generation == generation && cacheEntry.value.mode == OAuth
    }

    /** The stored credentials of an entry that last longer than three minutes. */
    predicate Lasting(e: Entry, now: int) {
      e.sts != 0 && e.stsExpire - now > 180 && e.stsExpire > now
    }

    /** How the entry in the cache is served: if it is one's own, as it is while it lasts, and then by a refresh. */
    twostate predicate Serves(new found: Option<Entry>, now: int, r: Acquired)
      reads this, disk
    {
      if found.None? || found.value.mode != OAuth || found.value.generation != generation then
        r.Error? && disk.issued == old(disk.issued) && SpendsNothing()
      else if Lasting(found.value, now) then
        && disk.issued == old(disk.issued) && SpendsNothing()
        && (r.Snapshot? ==> r.sts == Sts(found.value.sts, found.value.stsExpire))
      else
        SpendsWithNeed(found.value, now, r.Snapshot?) && (r.Snapshot? ==> !SpendsNothing())
    }

    /** Without faults lasting credentials are served, and a missing or foreign entry leaves nothing in memory. */
    predicate Settles(found: Option<Entry>, now: int, r: Acquired)
      reads this
    {
      if found.None? || found.value.mode != OAuth || found.value.generation != generation
      then cached.None? && cacheEntry.None?
      else Lasting(found.value, now) ==> r.Snapshot?
    }

    /** The configuration still names this provider's generation. */
    ghost predicate SourceIs()
      reads this, disk, disk.config
    {
      disk.config.file.Some? && disk.config.file.value.found && disk.config.file.value.source == generation
    }

    /** The refresh request: refused, or answered with an answer that may not arrive. */
    method AskService(now: int) returns (reply: Option<Tokens>)
      requires Valid() && Owner() && disk.pending.None?
      modifies disk
      ensures Valid() && Owner() && old(disk.run) <= disk.run
      ensures disk.unsettled == old(disk.unsettled) && disk.KeepsAttempt()
      ensures disk.pending.None? ==> disk.issued == old(disk.issued) && reply.None?
      ensures disk.pending.Some? ==> disk.pending == Some(generation) && generation in disk.issued
      ensures reply.Some? ==>
        && disk.pending.Some? && disk.issued[generation] == reply.value.refresh && disk.issued != old(disk.issued)
        && reply.value.refresh != 0 && reply.value.access != 0 && reply.value.accessExpire > now
      ensures SpendsNothing()
    {
      hide AllEnabled, Exec, Inv, TokenSafe, NewToken, NewGeneration;
      var presented := cacheEntry.value.refresh;
      var reached := disk.SystemCall();
      if !reached { return None; }
      if generation !in disk.issued || disk.issued[generation] != presented { return None; }
      var refused: bool := *;
      if refused { return None; }
      var next: Tokens := *;
      // The service gives out no token twice.
      if !NewToken(next.refresh, disk.W()) { return None; }
      NewTokenDiffers(next.refresh, disk.W());
      disk.Log(Answer(next.refresh), disk.W());
      var arrived: bool := *;
      // An answer with an empty token or no lifetime left is discarded like a lost one.
      if !arrived || next.access == 0 || next.refresh == 0 || next.accessExpire <= now { return None; }
      reply := Some(next);
    }

    /** The prepared commit of an entry with the rotated token. */
    method PersistToken(entry: Entry, prepared: PrivateReplace<Entry>, size: nat) returns (r: WriteResult)
      requires Valid() && Owner() && prepared.Valid() && prepared.target == disk.cache
      requires disk.pending == Some(generation) && Owns(entry, disk.cache.file) && Fresh(disk.W(), entry)
      modifies disk, disk.cache, prepared
      ensures Valid() && old(disk.run) <= disk.run && prepared.Valid() && disk.KeepsAttempt()
      ensures disk.config.State() == old(disk.config.State()) && disk.journal.State() == old(disk.journal.State())
      ensures disk.issued == old(disk.issued)
      ensures if r == OtherError then disk.cache.State() == old(disk.cache.State()) else disk.cache.file == Some(entry)
      ensures r == Nil ==> disk.pending.None? && Durable(disk.W().cch)
      ensures disk.pending.None? ==> disk.unsettled == old(disk.unsettled) - {generation}
      ensures disk.pending.Some? ==> disk.pending == Some(generation) && disk.unsettled == old(disk.unsettled)
      ensures SpendsNothing()
      ensures disk.healthy && old(prepared.open) && size <= prepared.reserve ==> r == Nil
    {
      hide AllEnabled, Exec, Inv, TokenSafe, Enabled, Effect;
      var w := disk.W();
      StoreRotated(entry, w);
      var steps;
      r, steps := prepared.Commit(entry, size);
      if |steps| >= 1 {
        disk.Log(RefreshCache(entry), w);
        w := Effect(RefreshCache(entry), w);
      }
      if |steps| == 2 {
        disk.Log(SyncCache, w);
      }
    }

    /** The commit callback of Acquire: persist the pair, and only then look at the configuration. */
    method CommitToken(t: Tokens, prepared: PrivateReplace<Entry>, size: nat) returns (o: Outcome)
      requires Valid() && Owner() && prepared.Valid() && prepared.target == disk.cache
      requires disk.pending == Some(generation) && generation in disk.issued && disk.issued[generation] == t.refresh
      modifies this, disk, disk.config, disk.cache, prepared
      ensures Valid() && old(disk.run) <= disk.run && prepared.Valid() && disk.KeepsAttempt()
      ensures disk.issued == old(disk.issued) && disk.journal.file.None?
      ensures SpendsNothing()
      ensures o.Ok? ==>
        && Owner()
        && cacheEntry.value ==
           old(cacheEntry).value.(refresh := t.refresh, access := t.access, accessExpire := t.accessExpire)
      // nil, and any error of the check behind it, means the pair is durable.
      ensures o.Ok? ==> disk.pending.None? && Durable(disk.W().cch) && SourceIs()
      ensures
        && disk.healthy && disk.alone && old(SourceIs()) && generation != 0
        && old(prepared.open) && size <= prepared.reserve
        ==> o.Ok?
      ensures disk.pending.None? ==> disk.unsettled == old(disk.unsettled) - {generation}
      ensures disk.pending.Some? ==> disk.pending == Some(generation) && disk.unsettled == old(disk.unsettled)
    {
      hide AllEnabled, Exec, Inv, TokenSafe, NewToken, NewGeneration, Effect, Enabled;
      var entry := cacheEntry.value.(refresh := t.refresh, access := t.access, accessExpire := t.accessExpire);
      if generation == 0 { return OTHER; }
      var readable := disk.SystemCall();
      if !readable { return OTHER; }
      var current := disk.cache.file.value;
      if current.mode != entry.mode || current.generation != generation { return PROFILE_CHANGED; }
      var r := PersistToken(entry, prepared, size);
      if r != Nil { return OfWrite(r); }
      cacheEntry := Some(entry);
      disk.Others();
      o := VerifySource();
    }

    /** verifySourceGeneration */
    method VerifySource() returns (o: Outcome)
      ensures o.Ok? ==> SourceIs()
      ensures disk.healthy && SourceIs() ==> o.Ok?
    {
      var readable := disk.SystemCall();
      if !readable { return OTHER; }
      if disk.config.file.None? || !disk.config.file.value.found || disk.config.file.value.source != generation {
        return PROFILE_CHANGED;
      }
      o := Ok;
    }

    /** The rotation: ask the service, and let the commit callback persist the answer before it is used. */
    method Rotate(now: int, prepared: PrivateReplace<Entry>, size: nat) returns (o: Outcome, access: Token)
      requires Valid() && Owner() && prepared.Valid() && prepared.target == disk.cache && disk.pending.None?
      modifies this, disk, disk.config, disk.cache, prepared
      ensures Valid() && old(disk.run) <= disk.run && prepared.Valid() && disk.KeepsAttempt()
      ensures SpendsNothing() && disk.journal.file.None?
      ensures disk.pending.Some? ==> disk.pending == Some(generation)
      ensures disk.unsettled <= old(disk.unsettled)
      ensures o.Ok? ==>
        && Owner() && disk.pending.None? && Durable(disk.W().cch) && disk.issued != old(disk.issued)
        && generation in disk.issued && cacheEntry.value.refresh == disk.issued[generation]
        && cacheEntry.value.access == access != 0 && cacheEntry.value.accessExpire > now
        && cacheEntry.value == old(cacheEntry).value.(refresh := cacheEntry.value.refresh, access := access,
                                                      accessExpire := cacheEntry.value.accessExpire)
    {
      hide AllEnabled, Exec, Inv, TokenSafe, NewToken, NewGeneration, Enabled, Effect;
      var reply := AskService(now);
      if reply.None? { return OTHER, 0; }
      access := reply.value.access;
      o := CommitToken(reply.value, prepared, size);
    }

    /** The exchange of the access token for STS credentials. */
    method ExchangeAccess(access: Token, now: int) returns (o: Outcome, sts: Sts)
      requires Valid() && disk.pending.None?
      modifies disk
      ensures Valid() && disk.KeepsAttempt() && disk.W() == old(disk.W())
      ensures disk.run == old(disk.run) + [Exchange(access)]
      ensures o.Ok? ==> sts.key != 0 && sts.expires > now
    {
      hide AllEnabled, Exec, Inv, TokenSafe, NewToken, NewGeneration;
      disk.Log(Exchange(access), disk.W());
      var exchanged := disk.SystemCall();
      if !exchanged { return OTHER, Sts(0, 0); }
      sts := *;
      if sts.key == 0 || sts.expires <= now { return OTHER, sts; }
      o := Ok;
    }

    /** refreshOAuthCredentialWithHTTP */
    method Refresh(now: int, prepared: PrivateReplace<Entry>, size: nat) returns (o: Outcome, sts: Sts)
      requires Valid() && Owner() && prepared.Valid() && prepared.target == disk.cache && disk.pending.None?
      modifies this, disk, disk.config, disk.cache, prepared
      ensures Valid() && old(disk.run) <= disk.run && prepared.Valid() && disk.KeepsAttempt()
      ensures disk.journal.file.None?
      ensures o.Ok? ==> Owner() && disk.pending.None? && disk.unsettled <= old(disk.unsettled) && sts.key != 0
      ensures o.Ok? && disk.issued != old(disk.issued) ==>
        Durable(disk.W().cch) && generation in disk.issued && cacheEntry.value.refresh == disk.issued[generation]
      ensures disk.pending.Some? ==> disk.pending == Some(generation)
      ensures disk.unsettled <= old(disk.unsettled)
      // What is spent; and success means that the access token in the cache was.
      ensures SpendsWithNeed(old(cacheEntry).value, now, o.Ok?)
      ensures o.Ok? ==> |disk.run| > |old(disk.run)| && disk.run[|disk.run| - 1] == Exchange(cacheEntry.value.access)
      // An access token that needs no rotation is exchanged as it is, and an expired login is not used at all.
      ensures
        var e := old(cacheEntry).value;
        e.access != 0 && (e.refresh == 0 || (e.accessExpire != 0 && e.accessExpire - now > 1200))
        && !(e.refresh != 0 && 0 < e.refreshExpire <= now)
        ==> disk.run == old(disk.run) + [Exchange(e.access)]
      ensures
        var e := old(cacheEntry).value;
        && (e.refresh != 0 && 0 < e.refreshExpire <= now ==> disk.W() == old(disk.W()) && disk.run == old(disk.run))
        && (o.Ok? && disk.issued == old(disk.issued) ==> cacheEntry == Some(e))
        && (o.Ok? ==> cacheEntry.value == e.(refresh := cacheEntry.value.refresh, access := cacheEntry.value.access,
                                             accessExpire := cacheEntry.value.accessExpire))
    {
      hide AllEnabled, Exec, Inv, TokenSafe, NewToken, NewGeneration, Enabled, Effect;
      sts := Sts(0, 0);
      var e := cacheEntry.value;
      if e.refresh != 0 && e.refreshExpire > 0 && e.refreshExpire <= now { return OTHER, sts; }
      var access := e.access;
      if NeedsRotation(e, now) {
        o, access := Rotate(now, prepared, size);
        if !o.Ok? { return; }
      }
      if access == 0 { return OTHER, sts; }
      o, sts := ExchangeAccess(access, now);
    }

    /** Acquire: serve from memory, or take the profile lock and do the rest. */
    method Acquire(now: int, size: nat) returns (r: Acquired, ghost found: Option<Entry>)
      requires Valid() && disk.pending.None? && !disk.confirmed
      modifies this, disk, disk.config, disk.cache, disk.journal
      ensures Valid() && old(disk.run) <= disk.run && disk.pending.None? && !disk.confirmed
      // A run that ends in a snapshot keeps the invariant of the protocol.
      ensures r.Snapshot? && disk.attempt !in disk.reverted ==> disk.KeepsInv()
      // However it ends, the tokens stay safe, unless the absence of the journal
      // that it finds is not durable: nothing here settles that.
      ensures old(disk.journal.file.Some? || disk.journal.State() == Cell(None, {None})) ==> disk.KeepsTokens()
      ensures r.Snapshot? ==> r.sts.expires > now
      // What is in memory is served while it lasts longer than three minutes.
      ensures
        if old(cached).Some? && old(cached).value.expires - now > 180
        then r == Snapshot(old(cached).value) && disk.W() == old(disk.W()) && disk.run == old(disk.run)
        else
          && |disk.run| > |old(disk.run)|
          && (r.Snapshot? ==> old(SourceIs()) && cached == Some(r.sts))
          && Serves(found, now, r)
          && (old(disk.journal.file).None? ==>
                found == old(disk.cache.file) && (disk.healthy && old(SourceIs()) ==> Settles(found, now, r)))
      // Only a run that reports an error can lose a token, and only of its own generation.
      ensures r.Snapshot? ==> disk.unsettled <= old(disk.unsettled)
      ensures disk.unsettled <= old(disk.unsettled) + {generation}
      // A rotation that ends in success is durable in the cache.
      ensures r.Snapshot? && disk.issued != old(disk.issued) ==>
        && disk.cache.file.Some? && Durable(disk.W().cch)
        && disk.cache.file.value.generation == generation && Fresh(disk.W(), disk.cache.file.value)
    {
      hide AllEnabled, Exec, Inv, TokenSafe, NewToken, NewGeneration;
      if Usable(cached, now) {
        return Snapshot(cached.value), None;
      }
      r, found := AcquireLocked(now, size);
      disk.Release();
    }

    /** The part of Acquire that runs under the profile lock. */
    method AcquireLocked(now: int, size: nat) returns (r: Acquired, ghost found: Option<Entry>)
      requires Valid() && disk.pending.None? && !disk.confirmed
      modifies this, disk, disk.config, disk.cache, disk.journal
      ensures Valid() && old(disk.run) <= disk.run
      ensures r.Snapshot? && disk.attempt !in disk.reverted ==> disk.KeepsInv()
      ensures old(disk.journal.file.Some? || disk.journal.State() == Cell(None, {None})) ==> disk.KeepsTokens()
      ensures r.Snapshot? ==> r.sts.expires > now
      ensures disk.pending.Some? ==> disk.pending == Some(generation)
      ensures disk.unsettled <= old(disk.unsettled)
      ensures r.Snapshot? ==> disk.pending.None? && (disk.alone ==> SourceIs())
      ensures r.Snapshot? && disk.issued != old(disk.issued) ==>
        && disk.cache.file.Some? && Durable(disk.W().cch)
        && disk.cache.file.value.generation == generation && Fresh(disk.W(), disk.cache.file.value)
      // `found` is the entry in the cache after recovery, the one before it if there was no journal.
      ensures r.Snapshot? ==> old(SourceIs()) && Holds(r.sts)
      ensures Serves(found, now, r)
      ensures old(disk.journal.file).None? ==>
        found == old(disk.cache.file) && (disk.healthy && old(SourceIs()) ==> Settles(found, now, r))
    {
      hide AllEnabled, Exec, Inv, TokenSafe, NewToken, NewGeneration, Enabled, Effect;
      var o := RecoverForSource();
      found := disk.cache.file;
      if !o.Ok? { return Error(o), found; }
      r := AcquireRecovered(now, size);
    }

    /** Read the configuration, recover, and see whether what was read names this generation. */
    method RecoverForSource() returns (o: Outcome)
      requires Valid() && disk.pending.None? && !disk.confirmed
      modifies disk, disk.config, disk.cache, disk.journal
      ensures Valid() && SpendsNothing() && disk.KeepsTokens() && disk.attempt == old(disk.attempt)
      ensures disk.issued == old(disk.issued) && disk.pending.None? && disk.unsettled <= old(disk.unsettled)
      ensures o.Ok? && disk.attempt !in disk.reverted ==> disk.KeepsInv()
      ensures o.Ok? ==>
        && disk.journal.file.None? && old(SourceIs()) && (disk.alone ==> SourceIs())
        && (old(disk.journal.file).Some? ==> disk.journal.State() == Cell(None, {None}))
      ensures old(disk.journal.file).None? ==>
        && disk.cache.State() == old(disk.cache.State()) && disk.journal.State() == old(disk.journal.State())
        && (disk.healthy && old(SourceIs()) ==> o.Ok?)
    {
      hide AllEnabled, Exec, Inv, TokenSafe, NewToken, NewGeneration, Enabled, Effect, Final;
      var locked := disk.SystemCall();
      if !locked || disk.config.file.None? || !disk.config.file.value.found { return OTHER; }
      var source := disk.config.file.value.source;
      o := disk.Recover(disk.profile);
      if o.Ok? && source != generation {
        o := PROFILE_CHANGED;
      }
    }

    /** Acquire behind the recovery: is the entry in the cache this provider's own? */
    method AcquireRecovered(now: int, size: nat) returns (r: Acquired)
      requires Valid() && disk.pending.None? && disk.journal.file.None?
      modifies this, disk, disk.config, disk.cache
      ensures Valid() && old(disk.run) <= disk.run && disk.KeepsAttempt()
      ensures r.Snapshot? ==> r.sts.expires > now && disk.pending.None?
      ensures r.Snapshot? && disk.alone && old(SourceIs()) ==> SourceIs()
      ensures disk.pending.Some? ==> disk.pending == Some(generation)
      ensures disk.unsettled <= old(disk.unsettled)
      ensures r.Snapshot? && disk.issued != old(disk.issued) ==>
        && disk.cache.file.Some? && Durable(disk.W().cch)
        && disk.cache.file.value.generation == generation && Fresh(disk.W(), disk.cache.file.value)
      ensures r.Snapshot? ==> Holds(r.sts)
      ensures Serves(old(disk.cache.file), now, r)
      ensures disk.healthy ==> Settles(old(disk.cache.file), now, r)
    {
      hide AllEnabled, Exec, Inv, TokenSafe, NewToken, NewGeneration, Enabled, Effect;
      disk.Others();
      assert SpendsNothing() && disk.issued == old(disk.issued);
      r := AcquireEntry(now, size);
    }

    /** Is the entry in the cache this provider's own? */
    method AcquireEntry(now: int, size: nat) returns (r: Acquired)
      requires Valid() && disk.pending.None? && disk.journal.file.None?
      modifies this, disk, disk.config, disk.cache
      ensures Valid() && old(disk.run) <= disk.run && disk.KeepsAttempt()
      ensures r.Snapshot? ==> r.sts.expires > now && disk.pending.None?
      ensures r.Snapshot? && disk.alone && old(SourceIs()) ==> SourceIs()
      ensures disk.pending.Some? ==> disk.pending == Some(generation)
      ensures disk.unsettled <= old(disk.unsettled)
      ensures r.Snapshot? && disk.issued != old(disk.issued) ==>
        && disk.cache.file.Some? && Durable(disk.W().cch)
        && disk.cache.file.value.generation == generation && Fresh(disk.W(), disk.cache.file.value)
      ensures r.Snapshot? ==> Holds(r.sts)
      ensures Serves(old(disk.cache.file), now, r)
      ensures disk.healthy ==> Settles(old(disk.cache.file), now, r)
    {
      hide AllEnabled, Exec, Inv, TokenSafe, NewToken, NewGeneration, Enabled, Effect;
      var readable := disk.SystemCall();
      if !readable { return Error(OTHER); }
      if disk.cache.file.None? {
        cacheEntry, cached := None, None;
        return Error(OTHER);
      }
      var e := disk.cache.file.value;
      if e.mode != OAuth || e.generation != generation {
        cacheEntry, cached := None, None;
        return Error(PROFILE_CHANGED);
      }
      cacheEntry := Some(e);
      r := AcquireOwned(now, size);
    }

    /** What Acquire does with its own entry: serve it, or rotate and exchange. */
    method AcquireOwned(now: int, size: nat) returns (r: Acquired)
      requires Valid() && Owner() && disk.pending.None?
      modifies this, disk, disk.config, disk.cache
      ensures Valid() && old(disk.run) <= disk.run && disk.KeepsAttempt()
      ensures r.Snapshot? ==> r.sts.expires > now && disk.pending.None?
      ensures r.Snapshot? && disk.alone && old(SourceIs()) ==> SourceIs()
      ensures disk.pending.Some? ==> disk.pending == Some(generation)
      ensures disk.unsettled <= old(disk.unsettled)
      ensures r.Snapshot? && disk.issued != old(disk.issued) ==>
        && disk.cache.file.Some? && Durable(disk.W().cch)
        && disk.cache.file.value.generation == generation && Fresh(disk.W(), disk.cache.file.value)
      ensures r.Snapshot? ==> Holds(r.sts)
      // Credentials that last longer than three minutes are served as they are; no others are.
      ensures
        var e := old(cacheEntry).value;
        if Lasting(e, now)
        then r == Snapshot(Sts(e.sts, e.stsExpire)) && disk.W() == old(disk.W()) && disk.run == old(disk.run)
        else SpendsWithNeed(e, now, r.Snapshot?) && (r.Snapshot? ==> !SpendsNothing() && Durable(disk.W().cch))
    {
      hide AllEnabled, Exec, Inv, TokenSafe, NewToken, NewGeneration;
      var e := cacheEntry.value;
      if Usable(CachedSts(e, now), now) {
        cached := CachedSts(e, now);
        return Snapshot(cached.value);
      }
      var prepared := disk.cache.BeginPrivateReplace(CACHE_LIMIT);
      if prepared.None? { return Error(OTHER); }
      r := RefreshAndStore(now, prepared.value, size);
      prepared.value.Abort();
    }

    /** Rotate, exchange, and store the result. */
    method RefreshAndStore(now: int, prepared: PrivateReplace<Entry>, size: nat) returns (r: Acquired)
      requires Valid() && Owner() && prepared.Valid() && prepared.target == disk.cache && disk.pending.None?
      modifies this, disk, disk.config, disk.cache, prepared
      ensures Valid() && old(disk.run) <= disk.run && prepared.Valid() && disk.KeepsAttempt()
      ensures r.Snapshot? ==> r.sts.expires > now && disk.pending.None? && (disk.alone ==> SourceIs())
      ensures disk.pending.Some? ==> disk.pending == Some(generation)
      ensures disk.unsettled <= old(disk.unsettled)
      ensures SpendsWithNeed(old(cacheEntry).value, now, r.Snapshot?)
      ensures r.Snapshot? ==>
        && !SpendsNothing() && Holds(r.sts) && Durable(disk.W().cch)
        && (disk.issued != old(disk.issued) ==> Fresh(disk.W(), disk.cache.file.value))
    {
      hide AllEnabled, Exec, Inv, TokenSafe, NewToken, NewGeneration, Enabled, Effect;
      var o, sts := Refresh(now, prepared, size);
      if !o.Ok? { return Error(o); }
      if sts.key == 0 || sts.expires <= now { return Error(OTHER); }
      r := StoreSnapshot(sts);
    }

    /** Look at the configuration again, then store the exchanged credentials and keep them in memory. */
    method StoreSnapshot(sts: Sts) returns (r: Acquired)
      requires Valid() && Owner() && disk.pending.None?
      modifies this, disk, disk.config, disk.cache
      ensures Valid() && disk.KeepsAttempt() && SpendsNothing() && disk.pending.None?
      ensures disk.issued == old(disk.issued) && disk.unsettled <= old(disk.unsettled)
      ensures cacheEntry == if r.Snapshot? then Some(old(cacheEntry).value.(sts := sts.key, stsExpire := sts.expires))
                            else old(cacheEntry)
      ensures r.Snapshot? ==> r.sts == sts && Holds(sts) && Durable(disk.W().cch) && (disk.alone ==> SourceIs())
    {
      hide AllEnabled, Exec, Inv, TokenSafe, NewToken, NewGeneration, Enabled, Effect;
      disk.Others();
      var o := VerifySource();
      if !o.Ok? { return Error(o); }
      disk.Others();
      var entry := cacheEntry.value.(sts := sts.key, stsExpire := sts.expires);
      o := StoreResult(entry);
      if !o.Ok? { return Error(o); }
      cacheEntry, cached := Some(entry), Some(sts);
      r := Snapshot(sts);
    }

    /** The last conditional store, which carries the STS credentials beside the same refresh token. */
    method StoreResult(entry: Entry) returns (o: Outcome)
      requires Valid() && Owner() && disk.pending.None?
      requires Owns(entry, disk.cache.file) && entry.refresh == disk.cache.file.value.refresh
      modifies disk, disk.cache
      ensures Valid() && old(disk.run) <= disk.run && disk.pending.None? && disk.KeepsAttempt()
      ensures disk.issued == old(disk.issued) && disk.unsettled <= old(disk.unsettled)
      ensures disk.config.State() == old(disk.config.State())
      ensures o.Ok? ==> disk.cache.State() == Cell(Some(entry), {Some(entry)})
      ensures SpendsNothing()
      ensures disk.healthy && generation != 0 ==> o.Ok?
    {
      hide AllEnabled, Exec, Inv, TokenSafe, NewToken, NewGeneration;
      if generation == 0 { return OTHER; }
      var readable := disk.SystemCall();
      if !readable { return OTHER; }
      var current := disk.cache.file.value;
      if current.generation != generation || current.mode != entry.mode { return PROFILE_CHANGED; }
      var w := disk.WriteCache(entry, RefreshCache(entry));
      o := OfWrite(w);
    }
  }
}
