/**
 * The one-time refresh tokens of module OAuthProtocol.  The service accepts a
 * token once and answers with its successor, so an entry that is put back after
 * its token was rotated is worthless.  The module shows over all runs which
 * rotations are safe, whatever other processes save and wherever power fails.
 */
module OAuthTokens {
  import opened Common
  import opened FilePrimitives
  import opened OAuthProtocol

  /** The entry carries the last token issued for its generation, or it is known to be lost or about to be stored. */
  predicate TokenOk(w: World, e: Entry) {
    e.generation in w.issued &&
    (Fresh(w, e) || e.generation in w.unsettled || w.pending == Some(e.generation))
  }

  predicate CacheTokensOk(w: World) {
    forall e :: e in w.cch.maybe && e.Some? ==> TokenOk(w, e.value)
  }

  // ------------------------------------------------------------------
  // What every run keeps, disciplined or not.

  predicate SameOwner(a: Option<Entry>, b: Option<Entry>) {
    if a.None? then b.None? else Owns(a.value, b)
  }

  predicate WellKept(r: Record, w: World) {
    && r.profile == w.profile && r.resolved == w.resolved && ValidRecord(r)
    && (r.previous.Some? ==> r.previous.value.generation != r.next.generation)
    && (Undone(r, w) || (r.previous.Some? ==> r.previous.value.mode == OAuth))
  }

  /** One owner in the cache while no journal is visible, and one journal once its login has begun to act. */
  predicate DiskInv(w: World) {
    && CellOk(w.cfg) && CellOk(w.cch) && CellOk(w.jnl)
    && (forall j :: j in w.jnl.maybe && j.Some? ==> WellKept(j.value, w))
    && (w.writing || w.confirmed ==> w.jnl.now.Some?)
    && (w.confirmed ==> w.jnl.maybe == {w.jnl.now})
    && (if w.jnl.now.None? then forall e :: e in w.cch.maybe ==> SameOwner(w.cch.now, e)
        else w.attempt == w.jnl.now.value && (Undone(w.attempt, w) || w.jnl.maybe == {w.jnl.now}))
  }

  /** The new configuration may be seen again, or is yet to be written, so the next entry may be put in place. */
  predicate MayInstall(r: Record, w: World) {
    !NoneNew(r, w) || (w.jnl.now == Some(r) && (w.writing || w.confirmed))
  }

  predicate AllOf(generation: Generation, w: World) {
    forall e :: e in w.cch.maybe ==> e.Some? && e.value.generation == generation
  }

  /** This entry can be put in place: its token is good, and stays good when the cache is synced. */
  predicate EntrySafe(e: Entry, w: World) {
    && TokenOk(w, e) && w.pending != Some(e.generation)
    && (forall c :: c in w.cch.maybe && c.Some? && c.value.generation == e.generation && Fresh(w, c.value) ==>
          Fresh(w, e))
  }

  /** The entries of the record that a recovery may put in place are safe. */
  predicate RecordSafe(r: Record, w: World) {
    && (MayInstall(r, w) ==> EntrySafe(r.next, w))
    && (r.previous.Some? && (MayInstall(r, w) || !AllOf(r.previous.value.generation, w)) ==>
          EntrySafe(r.previous.value, w))
  }

  predicate TokenSafe(w: World) {
    && DiskInv(w) && CacheTokensOk(w)
    && (forall j :: j in w.jnl.maybe && j.Some? ==> RecordSafe(j.value, w))
    && (w.pending.Some? ==> w.jnl.now.None?)
    && (w.jnl.now.None? && w.cch.now.Some? ==>
          forall c :: c in w.cch.maybe && c.Some? && Fresh(w, c.value) ==> Fresh(w, w.cch.now.value))
  }

  /**
   * The token in the cache may be rotated: no journal that may be found has an
   * entry of its generation while the new configuration of that journal may be
   * found as well.
   */
  predicate SafeRotation(w: World) {
    w.cch.now.Some? ==>
      forall j :: j in w.jnl.maybe && j.Some? && OfGeneration(j.value, w.cch.now.value.generation) ==>
        NoneNew(j.value, w)
  }

  predicate AnswersSafely(a: Action, w: World) {
    a.Answer? ==> SafeRotation(w)
  }

  lemma SyncKeepsDisk(a: Action, w: World)
    requires DiskInv(w) && (a.SyncConfig? || a.SyncJournal?) && Enabled(a, w)
    ensures DiskInv(Effect(a, w))
  {
  }

  lemma SyncCacheKeepsDisk(a: Action, w: World)
    requires DiskInv(w) && (a.SyncCache?) && Enabled(a, w)
    ensures DiskInv(Effect(a, w))
  {
  }

  lemma LockKeepsDisk(a: Action, w: World)
    requires DiskInv(w) && (a.Unlock? || a.Confirm?) && Enabled(a, w)
    ensures DiskInv(Effect(a, w))
  {
  }

  lemma PowerLossKeepsDisk(a: Action, w: World)
    requires DiskInv(w) && (a.PowerLoss?) && Enabled(a, w)
    ensures DiskInv(Effect(a, w))
  {
  }

  lemma WriteJournalKeepsDisk(a: Action, w: World)
    requires DiskInv(w) && (a.WriteJournal?) && Enabled(a, w)
    ensures DiskInv(Effect(a, w))
  {
  }

  lemma CommitKeepsDisk(a: Action, w: World)
    requires DiskInv(w) && (a.CommitNext? || a.WriteConfig?) && Enabled(a, w)
    ensures DiskInv(Effect(a, w))
  {
  }

  lemma RecoveryKeepsDisk(a: Action, w: World)
    requires DiskInv(w) && (a.InstallNext? || a.RestorePrevious? || a.DropJournal?) && Enabled(a, w)
    ensures DiskInv(Effect(a, w))
  {
  }

  lemma LoginKeepsDisk(a: Action, w: World)
    requires DiskInv(w) && (a.Login? || a.Exchange?) && Enabled(a, w)
    ensures DiskInv(Effect(a, w))
  {
  }

  lemma AnswerKeepsDisk(a: Action, w: World)
    requires DiskInv(w) && (a.Answer?) && Enabled(a, w)
    ensures DiskInv(Effect(a, w))
  {
  }

  lemma RefreshKeepsDisk(a: Action, w: World)
    requires DiskInv(w) && (a.RefreshCache?) && Enabled(a, w)
    ensures DiskInv(Effect(a, w))
  {
  }

  lemma OthersKeepDisk(a: Action, w: World)
    requires DiskInv(w) && (a.TouchConfig? || a.ChangeConfig?) && Enabled(a, w)
    ensures DiskInv(Effect(a, w))
  {
  }

  lemma ActionKeepsDisk(a: Action, w: World)
    requires DiskInv(w) && Enabled(a, w)
    ensures DiskInv(Effect(a, w))
  {
    hide *;
    match a
    case SyncConfig | SyncJournal => SyncKeepsDisk(a, w);
    case SyncCache => SyncCacheKeepsDisk(a, w);
    case Unlock | Confirm => LockKeepsDisk(a, w);
    case PowerLoss(_, _, _) => PowerLossKeepsDisk(a, w);
    case WriteJournal(_) => WriteJournalKeepsDisk(a, w);
    case CommitNext | WriteConfig(_) => CommitKeepsDisk(a, w);
    case InstallNext | RestorePrevious | DropJournal => RecoveryKeepsDisk(a, w);
    case Login(_, _, _) | Exchange(_) => LoginKeepsDisk(a, w);
    case Answer(_) => AnswerKeepsDisk(a, w);
    case RefreshCache(_) => RefreshKeepsDisk(a, w);
    case TouchConfig(_) | ChangeConfig(_) => OthersKeepDisk(a, w);
  }

  // ------------------------------------------------------------------
  // Safe rotations keep the tokens.

  /** The service's books go on, and what is no longer pending counts as lost. */
  predicate BooksGoOn(w: World, w': World) {
    && (forall g :: g in w.issued ==> g in w'.issued && w'.issued[g] == w.issued[g])
    && w.unsettled <= w'.unsettled
    && (w'.pending == w.pending || (w.pending.Some? && w'.pending.None? && w.pending.value in w'.unsettled))
  }

  lemma EntryNarrows(e: Entry, w: World, w': World)
    requires BooksGoOn(w, w') && w'.cch.maybe <= w.cch.maybe && CacheTokensOk(w) && EntrySafe(e, w)
    ensures EntrySafe(e, w')
  {
  }

  /** Nothing but an absent journal is possible that was not possible before, and nothing more may be installed. */
  lemma NarrowKeepsSafe(w: World, w': World)
    requires TokenSafe(w) && DiskInv(w') && BooksGoOn(w, w')
    requires w'.cch.maybe <= w.cch.maybe && w'.jnl.maybe <= w.jnl.maybe + {None}
    requires forall j :: j in w'.jnl.maybe && j.Some? && MayInstall(j.value, w') ==> MayInstall(j.value, w)
    requires w'.pending.Some? ==> w'.jnl.now.None?
    requires w'.jnl.now.None? ==> Durable(w'.cch) || (w.jnl.now.None? && w'.cch.now == w.cch.now)
    ensures TokenSafe(w')
  {
    hide DiskInv, MayInstall, EntrySafe, BooksGoOn;
    BooksKeepTokens(w, w');
    forall j | j in w'.jnl.maybe && j.Some? ensures RecordSafe(j.value, w') {
      RecordNarrows(j.value, w, w');
    }
  }

  lemma BooksKeepTokens(w: World, w': World)
    requires BooksGoOn(w, w')
    ensures forall e :: TokenOk(w, e) ==> TokenOk(w', e) && (Fresh(w', e) <==> Fresh(w, e))
  {
  }

  lemma RecordNarrows(r: Record, w: World, w': World)
    requires BooksGoOn(w, w') && w'.cch.maybe <= w.cch.maybe && CacheTokensOk(w) && RecordSafe(r, w)
    requires MayInstall(r, w') ==> MayInstall(r, w)
    ensures RecordSafe(r, w')
  {
    hide BooksGoOn, CacheTokensOk, EntrySafe, MayInstall;
    if EntrySafe(r.next, w) {
      EntryNarrows(r.next, w, w');
    }
    if r.previous.Some? && EntrySafe(r.previous.value, w) {
      EntryNarrows(r.previous.value, w, w');
    }
  }

  lemma SyncKeepsSafe(a: Action, w: World)
    requires TokenSafe(w) && (a.SyncConfig? || a.SyncJournal?) && Enabled(a, w)
    ensures TokenSafe(Effect(a, w))
  {
    ActionKeepsDisk(a, w);
    NarrowKeepsSafe(w, Effect(a, w));
  }

  lemma LockKeepsSafe(a: Action, w: World)
    requires TokenSafe(w) && (a.Unlock? || a.Confirm?) && Enabled(a, w)
    ensures TokenSafe(Effect(a, w))
  {
    ActionKeepsDisk(a, w);
    NarrowKeepsSafe(w, Effect(a, w));
  }

  lemma PowerLossKeepsSafe(a: Action, w: World)
    requires TokenSafe(w) && (a.PowerLoss?) && Enabled(a, w)
    ensures TokenSafe(Effect(a, w))
  {
    ActionKeepsDisk(a, w);
    NarrowKeepsSafe(w, Effect(a, w));
  }

  lemma LoginKeepsSafe(a: Action, w: World)
    requires TokenSafe(w) && (a.Login? || a.Exchange?) && Enabled(a, w)
    ensures TokenSafe(Effect(a, w))
  {
    ActionKeepsDisk(a, w);
    NarrowKeepsSafe(w, Effect(a, w));
  }

  lemma OthersKeepSafe(a: Action, w: World)
    requires TokenSafe(w) && (a.TouchConfig? || a.ChangeConfig?) && Enabled(a, w)
    ensures TokenSafe(Effect(a, w))
  {
    ActionKeepsDisk(a, w);
    NarrowKeepsSafe(w, Effect(a, w));
  }

  lemma DropKeepsSafe(a: Action, w: World)
    requires TokenSafe(w) && (a.DropJournal? || a.WriteConfig?) && Enabled(a, w)
    ensures TokenSafe(Effect(a, w))
  {
    ActionKeepsDisk(a, w);
    NarrowKeepsSafe(w, Effect(a, w));
  }

  lemma WriteJournalKeepsSafe(a: Action, w: World)
    requires TokenSafe(w) && (a.WriteJournal?) && Enabled(a, w)
    ensures TokenSafe(Effect(a, w))
  {
    ActionKeepsDisk(a, w);
  }

  lemma CommitKeepsSafe(a: Action, w: World)
    requires TokenSafe(w) && (a.CommitNext?) && Enabled(a, w)
    ensures TokenSafe(Effect(a, w))
  {
    ActionKeepsDisk(a, w);
  }

  lemma InstallKeepsSafe(a: Action, w: World)
    requires TokenSafe(w) && (a.InstallNext?) && Enabled(a, w)
    ensures TokenSafe(Effect(a, w))
  {
    ActionKeepsDisk(a, w);
  }

  lemma RestoreKeepsSafe(a: Action, w: World)
    requires TokenSafe(w) && (a.RestorePrevious?) && Enabled(a, w)
    ensures TokenSafe(Effect(a, w))
  {
    ActionKeepsDisk(a, w);
  }

  lemma RefreshKeepsSafe(a: Action, w: World)
    requires TokenSafe(w) && (a.RefreshCache?) && Enabled(a, w)
    ensures TokenSafe(Effect(a, w))
  {
    ActionKeepsDisk(a, w);
  }

  lemma AnswerKeepsSafe(a: Action, w: World)
    requires TokenSafe(w) && a.Answer? && Enabled(a, w) && AnswersSafely(a, w)
    ensures TokenSafe(Effect(a, w))
  {
    ActionKeepsDisk(a, w);
  }

  lemma SyncCacheKeepsEntry(e: Entry, w: World)
    requires CellOk(w.cch) && EntrySafe(e, w)
    ensures EntrySafe(e, Effect(SyncCache, w))
  {
  }

  lemma SyncCacheKeepsRecordSafe(r: Record, w: World)
    requires CellOk(w.cch) && RecordSafe(r, w)
    ensures RecordSafe(r, Effect(SyncCache, w))
  {
    hide EntrySafe;
    if EntrySafe(r.next, w) {
      SyncCacheKeepsEntry(r.next, w);
    }
    if r.previous.Some? && EntrySafe(r.previous.value, w) {
      SyncCacheKeepsEntry(r.previous.value, w);
    }
  }

  lemma SyncCacheKeepsSafe(w: World)
    requires TokenSafe(w)
    ensures TokenSafe(Effect(SyncCache, w))
  {
    hide RecordSafe;
    SyncCacheOnly(w);
    ActionKeepsDisk(SyncCache, w);
    forall j | j in w.jnl.maybe && j.Some? ensures RecordSafe(j.value, Effect(SyncCache, w)) {
      SyncCacheKeepsRecordSafe(j.value, w);
    }
  }

  lemma ActionKeepsSafe(a: Action, w: World)
    requires TokenSafe(w) && Enabled(a, w) && AnswersSafely(a, w)
    ensures TokenSafe(Effect(a, w))
  {
    hide *;
    match a
    case SyncConfig | SyncJournal => SyncKeepsSafe(a, w);
    case SyncCache => SyncCacheKeepsSafe(w);
    case Unlock | Confirm => LockKeepsSafe(a, w);
    case PowerLoss(_, _, _) => PowerLossKeepsSafe(a, w);
    case WriteJournal(_) => WriteJournalKeepsSafe(a, w);
    case CommitNext => CommitKeepsSafe(a, w);
    case InstallNext => InstallKeepsSafe(a, w);
    case RestorePrevious => RestoreKeepsSafe(a, w);
    case DropJournal | WriteConfig(_) => DropKeepsSafe(a, w);
    case Login(_, _, _) | Exchange(_) => LoginKeepsSafe(a, w);
    case Answer(_) => AnswerKeepsSafe(a, w);
    case RefreshCache(_) => RefreshKeepsSafe(a, w);
    case TouchConfig(_) | ChangeConfig(_) => OthersKeepSafe(a, w);
  }

  /** Every rotation of the run was safe when it was asked for. */
  predicate RotatesSafely(w: World, run: seq<Action>) {
    run == [] ||
    (RotatesSafely(w, run[..|run| - 1]) && AnswersSafely(run[|run| - 1], Exec(w, run[..|run| - 1])))
  }

  lemma {:induction false} RunKeepsSafe(w: World, run: seq<Action>)
    requires TokenSafe(w) && AllEnabled(w, run) && RotatesSafely(w, run)
    ensures TokenSafe(Exec(w, run))
  {
    hide TokenSafe, Enabled, Effect, AnswersSafely;
    if run != [] {
      var k := |run| - 1;
      RunKeepsSafe(w, run[..k]);
      ActionKeepsSafe(run[k], Exec(w, run[..k]));
    }
  }

  /** Whenever the profile lock is free, every entry the cache may hold carries the last token of its generation. */
  predicate TokensLinear(w: World) {
    w.pending.None? ==>
      forall e :: e in w.cch.maybe && e.Some? && e.value.generation !in w.unsettled ==> Fresh(w, e.value)
  }

  /**
   * One-time tokens.  In every run that rotates safely, whatever other processes
   * save and wherever power fails: whenever the profile lock is free, every entry
   * the cache may hold carries the last refresh token issued for its generation,
   * unless a run stopped or failed between the service's answer and its own commit.
   */
  lemma TokenLinearity(w: World, run: seq<Action>)
    requires TokenSafe(w) && AllEnabled(w, run) && RotatesSafely(w, run)
    ensures TokensLinear(Exec(w, run))
  {
    hide Exec, AllEnabled, RotatesSafely;
    RunKeepsSafe(w, run);
  }

  /** A disk at rest whose entry carries its token is a starting point. */
  lemma QuietTokensAreSafe(w: World)
    requires CellOk(w.cfg) && Durable(w.cch) && w.jnl == Cell(None, {None})
    requires !w.writing && !w.confirmed && CacheTokensOk(w)
    ensures TokenSafe(w)
  {
  }

  /** What the caller of a rotation can make sure of: that the absence of the journal is durable. */
  lemma DurableAbsenceIsSafe(w: World)
    requires w.jnl == Cell(None, {None})
    ensures SafeRotation(w)
  {
  }

  // ------------------------------------------------------------------
  // Any other rotation can lose its token.

  /** The run begins with a rotation and asks for no other. */
  predicate OneAnswer(run: seq<Action>, t: Token) {
    run != [] && run[0] == Answer(t) && forall i :: 1 <= i < |run| ==> !run[i].Answer?
  }

  lemma ExtendQuietly(w: World, end: World, run: seq<Action>, t: Token, a: Action)
    returns (end': World, run': seq<Action>)
    requires AllEnabled(w, run) && end == Exec(w, run) && Enabled(a, end)
    requires OneAnswer(run, t) && !a.Answer?
    ensures AllEnabled(w, run') && end' == Exec(w, run') == Effect(a, end) && OneAnswer(run', t)
  {
    hide AllEnabled, Exec, Enabled, Effect;
    end', run' := Extend(w, end, run, a);
  }

  /** The last token of the generation is `t`, and it is neither on its way nor lost. */
  predicate LastSettled(w: World, g: Generation, t: Token) {
    g in w.issued && w.issued[g] == t && w.pending.None? && g !in w.unsettled
  }

  /** The world after a restart that found this configuration, entry and journal. */
  predicate Restarted(w: World, c: Option<Doc>, e: Option<Entry>, j: Record) {
    && w.cfg == Cell(c, {c}) && w.cch == Cell(e, {e}) && w.jnl == Cell(Some(j), {Some(j)})
    && !w.writing && !w.confirmed && w.attempt == j
    && j.profile == w.profile && j.resolved == w.resolved && ValidRecord(j)
  }

  /** Recovery could roll this record either way. */
  predicate TwoWays(j: Record) {
    && ValidRecord(j)
    && (j.previous.Some? ==> j.previous.value.mode == OAuth && j.previous.value.generation != j.next.generation)
  }

  const OTHER_DOC := Doc(true, Digest(0, 0), 0, 0)

  lemma RotateStep(w: World, t: Token) returns (w': World, run: seq<Action>)
    requires CellOk(w.cch) && Enabled(Answer(t), w)
    ensures OneAnswer(run, t) && AllEnabled(w, run) && w' == Exec(w, run)
    ensures
      var e := w.cch.now.value.(refresh := t);
      && LastSettled(w', e.generation, t)
      && w' == w.(cch := Cell(Some(e), {Some(e)}), issued := w'.issued, pending := None, unsettled := w'.unsettled)
  {
    hide AllEnabled, Exec;
    var e := w.cch.now.value.(refresh := t);
    EmptyRun(w);
    w', run := Extend(w, w, [], Answer(t));
    w', run := ExtendQuietly(w, w', run, t, RefreshCache(e));
    w', run := ExtendQuietly(w, w', run, t, SyncCache);
  }

  lemma RestartStep(w: World, w0: World, run: seq<Action>, t: Token, c: Option<Doc>, e: Option<Entry>, j: Record)
    returns (w': World, run': seq<Action>)
    requires AllEnabled(w0, run) && w == Exec(w0, run) && OneAnswer(run, t)
    requires c in w.cfg.maybe && e in w.cch.maybe && Some(j) in w.jnl.maybe && w.pending.None?
    requires j.profile == w.profile && j.resolved == w.resolved && ValidRecord(j)
    ensures AllEnabled(w0, run') && w' == Exec(w0, run') && OneAnswer(run', t)
    ensures Restarted(w', c, e, j)
    ensures w'.issued == w.issued && w'.unsettled == w.unsettled && w'.pending.None?
  {
    hide AllEnabled, Exec;
    w', run' := ExtendQuietly(w0, w, run, t, PowerLoss(c, e, Some(j)));
  }

  /** Under a configuration that is not new, recovery puts the previous entry back. */
  lemma RestoreStep(w: World, w0: World, run: seq<Action>, t: Token, j: Record)
    returns (w': World, run': seq<Action>)
    requires AllEnabled(w0, run) && w == Exec(w0, run) && OneAnswer(run, t)
    requires w.jnl == Cell(Some(j), {Some(j)}) && w.attempt == j && !w.confirmed && TwoWays(j)
    requires j.profile == w.profile && w.pending.None?
    requires w.cch.now.Some? && w.cch.now.value.generation == j.next.generation && w.cch.now.value.mode == OAuth
    ensures AllEnabled(w0, run') && w' == Exec(w0, run') && OneAnswer(run', t)
    ensures
      w' == w.(cfg := Renamed(w.cfg, Some(OTHER_DOC)), reverted := w'.reverted, cch := Renamed(w.cch, j.previous))
  {
    hide AllEnabled, Exec;
    w', run' := ExtendQuietly(w0, w, run, t, ChangeConfig(OTHER_DOC));
    w', run' := ExtendQuietly(w0, w', run', t, RestorePrevious);
  }

  /** Under the new configuration it puts the next entry in place. */
  lemma InstallStep(w: World, w0: World, run: seq<Action>, t: Token, c: Option<Doc>, e: Option<Entry>, j: Record)
    returns (w': World, run': seq<Action>)
    requires AllEnabled(w0, run) && w == Exec(w0, run) && OneAnswer(run, t)
    requires Restarted(w, c, e, j) && TwoWays(j) && IsNew(j, c)
    requires e.Some? ==> j.previous.Some? && e.value.generation == j.previous.value.generation && e.value.mode == OAuth
    ensures AllEnabled(w0, run') && w' == Exec(w0, run') && OneAnswer(run', t)
    ensures w' == w.(confirmed := true, cch := Renamed(w.cch, Some(j.next)))
  {
    hide AllEnabled, Exec;
    w', run' := ExtendQuietly(w0, w, run, t, Confirm);
    w', run' := ExtendQuietly(w0, w', run', t, InstallNext);
  }

  lemma ReleaseStep(w: World, w0: World, run: seq<Action>, t: Token) returns (w': World, run': seq<Action>)
    requires AllEnabled(w0, run) && w == Exec(w0, run) && OneAnswer(run, t) && w.pending.None?
    ensures AllEnabled(w0, run') && w' == Exec(w0, run') && OneAnswer(run', t)
    ensures w' == w.(writing := false, confirmed := false)
  {
    hide AllEnabled, Exec;
    w', run' := ExtendQuietly(w0, w, run, t, Unlock);
  }

  /**
   * After a rotation that is not safe some continuation leaves a spent token in
   * the cache: the journal comes back, other authentication is saved, and power
   * fails before that save is durable.
   */
  lemma LossFollows(w: World, t: Token) returns (run: seq<Action>)
    requires DiskInv(w) && Enabled(Answer(t), w) && !SafeRotation(w)
    ensures OneAnswer(run, t) && AllEnabled(w, run) && !TokensLinear(Exec(w, run))
  {
    hide AllEnabled, Exec, Effect;
    var now := w.cch.now.value;
    var g := now.generation;
    var found :| found in w.jnl.maybe && found.Some? && OfGeneration(found.value, g) && !NoneNew(found.value, w);
    var j := found.value;
    var c :| c in w.cfg.maybe && IsNew(j, c);
    assert WellKept(j, w) && TwoWays(j);
    var rotated := Some(now.(refresh := t));
    var end;
    end, run := RotateStep(w, t);
    end, run := RestartStep(end, w, run, t, c, rotated, j);
    var spent: Entry;
    if j.next.generation == g {
      spent := j.next;
      end, run := RestoreStep(end, w, run, t, j);
      end, run := RestartStep(end, w, run, t, c, j.previous, j);
      end, run := InstallStep(end, w, run, t, c, j.previous, j);
    } else {
      spent := j.previous.value;
      end, run := InstallStep(end, w, run, t, c, rotated, j);
      end, run := ReleaseStep(end, w, run, t);
      end, run := RestoreStep(end, w, run, t, j);
    }
    assert Some(spent) in end.cch.maybe && !Fresh(end, spent);
  }

  /** A run is its first step and then the rest. */
  lemma {:induction false} RestOfRun(w: World, run: seq<Action>)
    requires AllEnabled(w, run) && run != []
    ensures Enabled(run[0], w) && AllEnabled(Effect(run[0], w), run[1..])
    ensures Exec(Effect(run[0], w), run[1..]) == Exec(w, run)
  {
    hide Enabled, Effect;
    var n := |run| - 1;
    if n == 0 {
      assert run[..0] == [] && run[1..] == [];
    } else {
      RestOfRun(w, run[..n]);
      assert run[..n][1..] == run[1..][..n - 1] && run[1..][n - 1] == run[n];
    }
  }

  predicate AsksNoMore(run: seq<Action>) {
    forall i :: 0 <= i < |run| ==> !run[i].Answer?
  }

  /** Whatever happens from here on, short of another rotation, no spent token is left in the cache. */
  ghost predicate KeptAfter(w: World) {
    forall rest :: AllEnabled(w, rest) && AsksNoMore(rest) ==> TokensLinear(Exec(w, rest))
  }

  lemma {:induction false} AskingNothingIsSafe(w: World, run: seq<Action>)
    requires AsksNoMore(run)
    ensures RotatesSafely(w, run)
  {
    if run != [] {
      AskingNothingIsSafe(w, run[..|run| - 1]);
    }
  }

  lemma SafeIsKept(w: World)
    requires TokenSafe(w)
    ensures KeptAfter(w)
  {
    hide TokenSafe, AllEnabled, Exec, TokensLinear;
    forall rest | AllEnabled(w, rest) && AsksNoMore(rest) ensures TokensLinear(Exec(w, rest)) {
      AskingNothingIsSafe(w, rest);
      TokenLinearity(w, rest);
    }
  }

  lemma UnsafeIsNotKept(a: Action, w: World)
    requires DiskInv(w) && Enabled(a, w) && !AnswersSafely(a, w)
    ensures !KeptAfter(Effect(a, w))
  {
    hide DiskInv, AllEnabled, Exec, TokensLinear, Enabled, Effect;
    var run := LossFollows(w, a.token);
    RestOfRun(w, run);
    var rest := run[1..];
    assert AsksNoMore(rest) && AllEnabled(Effect(a, w), rest) && !TokensLinear(Exec(Effect(a, w), rest));
  }

  /**
   * The exact condition.  From no moment of the run on can anything that happens,
   * short of another rotation, leave a spent token in the cache, if and only if
   * every rotation of the run was safe when it was asked for.
   */
  lemma {:induction false} TokensSurviveIff(w: World, run: seq<Action>)
    requires TokenSafe(w) && AllEnabled(w, run)
    ensures
      (forall k :: 0 <= k <= |run| ==> KeptAfter(Exec(w, run[..k]))) <==> RotatesSafely(w, run)
  {
    hide TokenSafe, Enabled, Effect, KeptAfter, AnswersSafely;
    if RotatesSafely(w, run) {
      forall k | 0 <= k <= |run| ensures KeptAfter(Exec(w, run[..k])) {
        Beginning(w, run, k);
        BeginningRotates(w, run, k);
        RunKeepsSafe(w, run[..k]);
        SafeIsKept(Exec(w, run[..k]));
      }
    } else {
      var k := FirstUnsafe(w, run);
      RunKeepsSafe(w, run[..k]);
      var end := Exec(w, run[..k]);
      SafeDisk(end);
      UnsafeIsNotKept(run[k], end);
      assert run[..k + 1][..k] == run[..k] && run[..k + 1][k] == run[k];
      assert Exec(w, run[..k + 1]) == Effect(run[k], end);
    }
  }

  lemma SafeDisk(w: World)
    requires TokenSafe(w)
    ensures DiskInv(w)
  {
  }

  lemma {:induction false} BeginningRotates(w: World, run: seq<Action>, k: nat)
    requires RotatesSafely(w, run) && k <= |run|
    ensures RotatesSafely(w, run[..k])
  {
    hide AnswersSafely;
    if k == |run| {
      assert run[..k] == run;
    } else {
      BeginningRotates(w, run[..|run| - 1], k);
      assert run[..|run| - 1][..k] == run[..k];
    }
  }

  lemma {:induction false} FirstUnsafe(w: World, run: seq<Action>) returns (k: nat)
    requires AllEnabled(w, run) && !RotatesSafely(w, run)
    ensures k < |run| && AllEnabled(w, run[..k]) && RotatesSafely(w, run[..k])
    ensures Enabled(run[k], Exec(w, run[..k])) && !AnswersSafely(run[k], Exec(w, run[..k]))
  {
    hide Enabled, AnswersSafely;
    var n := |run| - 1;
    if RotatesSafely(w, run[..n]) {
      k := n;
    } else {
      k := FirstUnsafe(w, run[..n]);
      assert run[..n][..k] == run[..k];
    }
  }

  // ------------------------------------------------------------------
  // What a rotation needs, told by the history of the run.

  /**
   * Looking back from the end of the run, the journal's name was last synced, or
   * found again after a power loss, when this record was not visible; or it never
   * was.
   */
  predicate JournalSettled(w: World, run: seq<Action>, r: Record) {
    && Exec(w, run).jnl.now != Some(r)
    && (run != [] && !run[|run| - 1].SyncJournal? && !run[|run| - 1].PowerLoss? ==>
          JournalSettled(w, run[..|run| - 1], r))
  }

  lemma JournalStaysOk(a: Action, w: World)
    requires CellOk(w.jnl) && Enabled(a, w)
    ensures CellOk(Effect(a, w).jnl)
    ensures if a.SyncJournal? || a.PowerLoss? then Durable(Effect(a, w).jnl)
            else Effect(a, w).jnl.maybe == w.jnl.maybe + {Effect(a, w).jnl.now}
  {
    hide NewToken, NewGeneration, Unused, Fresh, AtNext, AtPrevious;
  }

  /** A power loss can bring back a journal exactly if it was seen with nothing settled since. */
  lemma {:induction false} JournalPossibleExactlyIfSeen(w: World, run: seq<Action>, r: Record)
    requires Durable(w.jnl) && AllEnabled(w, run)
    ensures CellOk(Exec(w, run).jnl)
    ensures JournalSettled(w, run, r) <==> Some(r) !in Exec(w, run).jnl.maybe
  {
    hide Enabled, Effect;
    if run != [] {
      var k := |run| - 1;
      JournalPossibleExactlyIfSeen(w, run[..k], r);
      JournalStaysOk(run[k], Exec(w, run[..k]));
    }
  }

  /**
   * A rotation is safe exactly if every journal record of its generation is
   * settled, or the configuration was synced since readers last saw the new one
   * of that record.
   */
  lemma SafeRotationByHistory(w: World, run: seq<Action>)
    requires Durable(w.cfg) && Durable(w.jnl) && AllEnabled(w, run) && Exec(w, run).cch.now.Some?
    ensures
      var g := Exec(w, run).cch.now.value.generation;
      SafeRotation(Exec(w, run)) <==>
      forall r :: OfGeneration(r, g) ==> JournalSettled(w, run, r) || SyncedSinceNew(w, run, r)
  {
    hide AllEnabled, Exec, NoneNew, JournalSettled, SyncedSinceNew;
    var end := Exec(w, run);
    forall r
      ensures JournalSettled(w, run, r) <==> Some(r) !in end.jnl.maybe
      ensures SyncedSinceNew(w, run, r) <==> NoneNew(r, end)
    {
      JournalPossibleExactlyIfSeen(w, run, r);
      PossibleExactlyIfSeen(w, run, r);
    }
    assert forall r :: Some(r) in end.jnl.maybe ==> exists j :: j in end.jnl.maybe && j.Some? && j.value == r;
  }

  // ------------------------------------------------------------------
  // Careful roll backs keep the tokens as well.

  /** A recovery with this record would put nothing back that has been rotated since. */
  predicate RecordTokensOk(r: Record, w: World) {
    && (!NoneNew(r, w) ==> AllNext(r, w))
    && (!AllPrevious(r, w) && r.previous.Some? ==> TokenOk(w, r.previous.value))
  }

  predicate TokenInv(w: World) {
    && CacheTokensOk(w)
    && RecordTokensOk(w.attempt, w)
    && (forall j :: j in w.jnl.maybe && j.Some? ==> RecordTokensOk(j.value, w))
    && (w.confirmed ==> AllNext(w.attempt, w))
  }

  predicate CarefulStep(a: Action, w: World) {
    RollsBack(a, w) ==> NoneNew(w.attempt, w)
  }

  /** Less is possible than before, and no entry's token was superseded meanwhile. */
  lemma ShrinkKeepsTokens(w: World, w': World)
    requires TokenInv(w)
    requires w'.cfg.maybe <= w.cfg.maybe && w'.cch.maybe <= w.cch.maybe && w'.jnl.maybe <= w.jnl.maybe
    requires w'.attempt == w.attempt || Some(w'.attempt) in w.jnl.maybe
    requires w'.confirmed ==> w.confirmed && w'.attempt == w.attempt
    requires forall e :: TokenOk(w, e) ==> TokenOk(w', e)
    ensures TokenInv(w')
  {
    hide TokenOk;
  }

  lemma SyncKeepsTokens(a: Action, w: World)
    requires Inv(w) && TokenInv(w) && (a.SyncConfig? || a.SyncJournal?)
    ensures TokenInv(Effect(a, w))
  {
    hide TokenInv;
    ShrinkKeepsTokens(w, Effect(a, w));
  }

  lemma PowerLossKeepsTokens(a: Action, w: World)
    requires TokenInv(w) && (a.Unlock? || a.PowerLoss?) && Enabled(a, w)
    ensures TokenInv(Effect(a, w))
  {
    hide TokenInv;
    ShrinkKeepsTokens(w, Effect(a, w));
  }

  /** A synced cache settles the generation of the token in it, and of no other. */
  lemma SyncCacheSettles(w: World, e: Entry)
    requires TokenOk(w, e)
    requires w.cch.now.Some? ==> w.cch.now.value == e || w.cch.now.value.generation != e.generation
    ensures TokenOk(Effect(SyncCache, w), e)
  {
  }

  lemma SyncCacheKeepsRecord(w: World, r: Record)
    requires CellOk(w.cch) && Recoverable(r, w) && RecordTokensOk(r, w)
    ensures RecordTokensOk(r, Effect(SyncCache, w))
  {
    hide TokenOk;
    if !AtPrevious(r, w.cch.now) && r.previous.Some? {
      SyncCacheSettles(w, r.previous.value);
    }
  }

  lemma SyncCacheKeepsTokens(w: World)
    requires Inv(w) && TokenInv(w)
    ensures TokenInv(Effect(SyncCache, w))
  {
    hide TokenOk, RecordTokensOk, Recoverable;
    if w.cch.now.Some? {
      SyncCacheSettles(w, w.cch.now.value);
    }
    SyncCacheKeepsRecord(w, w.attempt);
    forall j | j in w.jnl.maybe && j.Some? ensures RecordTokensOk(j.value, Effect(SyncCache, w)) {
      SyncCacheKeepsRecord(w, j.value);
    }
  }

  lemma ConfirmKeepsTokens(w: World)
    requires Inv(w) && TokenInv(w) && Enabled(Confirm, w)
    ensures TokenInv(Effect(Confirm, w))
  {
    hide Recoverable;
  }

  lemma WriteJournalKeepsTokens(a: Action, w: World)
    requires Inv(w) && TokenInv(w) && a.WriteJournal? && Enabled(a, w)
    ensures TokenInv(Effect(a, w))
  {
  }

  lemma CommitKeepsTokens(a: Action, w: World)
    requires Inv(w) && TokenInv(w) && (a.CommitNext? || a.WriteConfig?) && Enabled(a, w)
    ensures TokenInv(Effect(a, w))
  {
  }

  lemma RecoveryKeepsTokens(a: Action, w: World)
    requires Inv(w) && TokenInv(w) && (a.InstallNext? || a.RestorePrevious? || a.DropJournal?)
    requires Enabled(a, w) && CarefulStep(a, w)
    ensures TokenInv(Effect(a, w))
  {
  }

  lemma LoginKeepsTokens(a: Action, w: World)
    requires TokenInv(w) && (a.Login? || a.Exchange?) && Enabled(a, w)
    ensures TokenInv(Effect(a, w))
  {
    hide TokenInv;
    ShrinkKeepsTokens(w, Effect(a, w));
  }

  lemma AnswerKeepsTokens(a: Action, w: World)
    requires TokenInv(w) && a.Answer? && Enabled(a, w)
    ensures TokenInv(Effect(a, w))
  {
    hide TokenInv;
    ShrinkKeepsTokens(w, Effect(a, w));
  }

  lemma RefreshKeepsTokens(a: Action, w: World)
    requires Inv(w) && TokenInv(w) && a.RefreshCache? && Enabled(a, w)
    ensures TokenInv(Effect(a, w))
  {
  }

  lemma OthersKeepRecord(a: Action, w: World, r: Record)
    requires CellOk(w.cfg) && RecordTokensOk(r, w)
    requires (a.TouchConfig? || (a.ChangeConfig? && !IsNew(r, Some(a.doc)))) && Enabled(a, w)
    ensures RecordTokensOk(r, Effect(a, w))
  {
  }

  lemma OthersKeepTokens(a: Action, w: World)
    requires Inv(w) && TokenInv(w) && (a.TouchConfig? || a.ChangeConfig?) && Enabled(a, w)
    ensures TokenInv(Effect(a, w))
  {
    hide RecordTokensOk, Recoverable;
    OthersKeepRecord(a, w, w.attempt);
    forall j | j in w.jnl.maybe && j.Some? ensures RecordTokensOk(j.value, Effect(a, w)) {
      OthersKeepRecord(a, w, j.value);
    }
  }

  lemma ActionKeepsTokens(a: Action, w: World)
    requires Inv(w) && TokenInv(w) && Enabled(a, w) && CarefulStep(a, w)
    ensures TokenInv(Effect(a, w))
  {
    hide *;
    match a
    case SyncConfig | SyncJournal => SyncKeepsTokens(a, w);
    case SyncCache => SyncCacheKeepsTokens(w);
    case Confirm => ConfirmKeepsTokens(w);
    case Unlock | PowerLoss(_, _, _) => PowerLossKeepsTokens(a, w);
    case WriteJournal(_) => WriteJournalKeepsTokens(a, w);
    case CommitNext | WriteConfig(_) => CommitKeepsTokens(a, w);
    case InstallNext | RestorePrevious | DropJournal => RecoveryKeepsTokens(a, w);
    case Login(_, _, _) | Exchange(_) => LoginKeepsTokens(a, w);
    case Answer(_) => AnswerKeepsTokens(a, w);
    case RefreshCache(_) => RefreshKeepsTokens(a, w);
    case TouchConfig(_) | ChangeConfig(_) => OthersKeepTokens(a, w);
  }

  lemma {:induction false} RunKeepsTokens(w: World, run: seq<Action>)
    requires Inv(w) && TokenInv(w) && Durable(w.cfg) && AllEnabled(w, run) && Careful(w, run)
    ensures TokenInv(Exec(w, run))
  {
    hide Inv, TokenInv, Enabled, Effect;
    if run != [] {
      var k := |run| - 1;
      var end := Exec(w, run[..k]);
      RunKeepsTokens(w, run[..k]);
      CarefulIsDisciplined(w, run[..k]);
      RunKeepsInv(w, run[..k]);
      PossibleExactlyIfSeen(w, run[..k], end.attempt);
      ActionKeepsTokens(run[k], end);
    }
  }

  /**
   * Rotations that are not safe cost no token as long as recovery is careful: no
   * roll back begins before the configuration was synced without the new one.
   */
  lemma CarefulRollBacksKeepTokens(w: World, run: seq<Action>)
    requires Inv(w) && TokenInv(w) && Durable(w.cfg) && AllEnabled(w, run) && Careful(w, run)
    ensures TokensLinear(Exec(w, run))
  {
    RunKeepsTokens(w, run);
  }

  /** So where nobody else saves other authentication, every run keeps its tokens. */
  lemma TokensWithoutForeignSaves(w: World, run: seq<Action>)
    requires Inv(w) && TokenInv(w) && Durable(w.cfg) && AllEnabled(w, run)
    requires forall i :: 0 <= i < |run| ==> !ForeignSave(run[i])
    ensures TokensLinear(Exec(w, run))
  {
    hide *;
    WithoutForeignSaves(w, run);
    CarefulRollBacksKeepTokens(w, run);
  }

  // ------------------------------------------------------------------
  // The run that loses one, from a quiet disk.

  const ROTATED := Entry(OAuth, 2, 21, 0, 0, 0, 0, 0)

  lemma QuietDiskKeepsTokens()
    ensures TokenInv(QuietDisk()) && TokenSafe(QuietDisk())
  {
  }

  /** The login is complete but for the sync of its journal's removal. */
  function LoggedIn(): World {
    World(
      Cell(Some(NEW_DOC), {Some(NEW_DOC)}), Cell(Some(NEXT), {Some(NEXT)}), Cell(None, {Some(RECORD), None}),
      0, 0, RECORD, false, false, true, {}, 2, map[1 := 10, 2 := 20], None, {})
  }

  /** Its token has been rotated, durably. */
  function RotatedSince(): World {
    LoggedIn().(cch := Cell(Some(ROTATED), {Some(ROTATED)}), issued := map[1 := 10, 2 := 21])
  }

  /** A power loss has undone the removal of the journal. */
  function RemovalLost(): World {
    RotatedSince().(jnl := Cell(Some(RECORD), {Some(RECORD)}))
  }

  /** A recovery under the foreign configuration has put the previous entry back. */
  function RolledBackLate(): World {
    World(
      Cell(Some(FOREIGN_DOC), {Some(NEW_DOC), Some(FOREIGN_DOC)}),
      Cell(Some(PREVIOUS), {Some(ROTATED), Some(PREVIOUS)}), Cell(Some(RECORD), {Some(RECORD)}),
      0, 0, RECORD, false, false, true, {}, 2, map[1 := 10, 2 := 21], None, {})
  }

  lemma FinishSteps()
    ensures
      var w1 := Effect(SyncConfig, SavedNotSynced());
      var w2 := Effect(Confirm, w1);
      && Enabled(SyncConfig, SavedNotSynced()) && Enabled(Confirm, w1) && Enabled(DropJournal, w2)
      && w2.confirmed && Effect(DropJournal, w2) == LoggedIn()
  {
  }

  lemma RotateSteps()
    ensures
      var w1 := Effect(Answer(21), LoggedIn());
      var w2 := Effect(RefreshCache(ROTATED), w1);
      && Enabled(Answer(21), LoggedIn()) && Enabled(RefreshCache(ROTATED), w1) && Enabled(SyncCache, w2)
      && Effect(SyncCache, w2) == RotatedSince()
  {
  }

  lemma LossStep()
    ensures
      var loss := PowerLoss(Some(NEW_DOC), Some(ROTATED), Some(RECORD));
      Enabled(loss, RotatedSince()) && Effect(loss, RotatedSince()) == RemovalLost()
  {
  }

  lemma RollBackLateSteps()
    ensures
      var w1 := Effect(ChangeConfig(FOREIGN_DOC), RemovalLost());
      && Enabled(ChangeConfig(FOREIGN_DOC), RemovalLost()) && Enabled(RestorePrevious, w1)
      && Effect(RestorePrevious, w1) == RolledBackLate()
  {
  }

  lemma InstallSteps()
    ensures
      var loss := PowerLoss(Some(NEW_DOC), Some(PREVIOUS), Some(RECORD));
      var w1 := Effect(loss, RolledBackLate());
      var w2 := Effect(Confirm, w1);
      var w3 := Effect(InstallNext, w2);
      && Enabled(loss, RolledBackLate()) && Enabled(Confirm, w1) && Enabled(InstallNext, w2)
      && w3.pending.None? && w3.unsettled == {} && w3.cch.now == Some(NEXT) && !Fresh(w3, NEXT)
  {
  }

  /** The run of a whole login and a rotation behind it. */
  lemma RotatedRun() returns (run: seq<Action>)
    ensures
      && AllEnabled(QuietDisk(), run) && Disciplined(QuietDisk(), run)
      && Exec(QuietDisk(), run) == RotatedSince()
  {
    hide AllEnabled, Disciplined, Exec, Enabled, Effect, Inv, TokenInv, TokenSafe;
    hide QuietDisk, CommittedNotSynced, SavedNotSynced, LoggedIn, RotatedSince, RemovalLost, RolledBackLate;
    run := LoginRun();
    var w := QuietDisk();
    var end := SavedNotSynced();
    FinishSteps();
    end, run := ExtendSafely(w, end, run, SyncConfig);
    end, run := ExtendSafely(w, end, run, Confirm);
    end, run := ExtendSafely(w, end, run, DropJournal);
    RotateSteps();
    end, run := ExtendSafely(w, end, run, Answer(21));
    end, run := ExtendSafely(w, end, run, RefreshCache(ROTATED));
    end, run := ExtendSafely(w, end, run, SyncCache);
  }

  /**
   * Discipline about dropped journals is not enough for the tokens.  This run
   * drops one only after confirming the new configuration; but recovery rolls
   * back under a foreign configuration that is not durable, and when the new one
   * comes back it installs the recorded entry, whose token was spent long ago.
   */
  lemma ForeignConfigCanPutBackSpentToken() returns (run: seq<Action>)
    ensures Inv(QuietDisk()) && TokenInv(QuietDisk()) && TokenSafe(QuietDisk())
    ensures AllEnabled(QuietDisk(), run) && Disciplined(QuietDisk(), run)
    ensures
      var end := Exec(QuietDisk(), run);
      && end.pending.None? && end.unsettled == {}
      && end.cch.now == Some(NEXT) && !Fresh(end, NEXT)
  {
    hide AllEnabled, Disciplined, Exec, Enabled, Effect, Inv, TokenInv, TokenSafe;
    hide QuietDisk, CommittedNotSynced, SavedNotSynced, LoggedIn, RotatedSince, RemovalLost, RolledBackLate;
    QuietDiskIsQuiet();
    QuietDiskKeepsTokens();
    run := RotatedRun();
    var w := QuietDisk();
    var end := RotatedSince();
    LossStep();
    RollBackLateSteps();
    end, run := ExtendSafely(w, end, run, PowerLoss(Some(NEW_DOC), Some(ROTATED), Some(RECORD)));
    end, run := ExtendSafely(w, end, run, ChangeConfig(FOREIGN_DOC));
    end, run := ExtendSafely(w, end, run, RestorePrevious);
    InstallSteps();
    end, run := ExtendSafely(w, end, run, PowerLoss(Some(NEW_DOC), Some(PREVIOUS), Some(RECORD)));
    end, run := ExtendSafely(w, end, run, Confirm);
    end, run := ExtendSafely(w, end, run, InstallNext);
  }
}
