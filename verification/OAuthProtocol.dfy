/**
 * The native OAuth login as a write-ahead-log protocol over three files: the
 * ecctl configuration, one credential-cache entry and the journal beside it.
 *
 * Everything a run does to the disk or to the token service is an `Action`.
 * `Enabled` is what the code has checked when it performs the action; the
 * imperative code (modules OAuthDisk and OAuthRefresh) is verified to perform
 * enabled actions only.  Other processes save the configuration at any step,
 * with this profile's authentication unchanged (`TouchConfig`) or replaced by
 * something of their own (`ChangeConfig`), and power fails at any step.  Over
 * all such runs the module shows when configuration and cache stay in agreement.
 */
module OAuthProtocol {
  import opened Common
  import opened FilePrimitives

  // Digests and random values are compared only, so they are plain numbers.
  // Zero stands for the empty string.
  type Generation = nat
  type Token = nat

  /** CredentialProfileAuthDigest; it covers the login generation and tells everything it covers apart. */
  datatype Digest = Digest(login: Generation, other: nat)

  datatype Mode = OAuth | CloudSSO

  /** credentialCacheEntry without `updated_at`, which every write restamps. */
  datatype Entry = Entry(
    mode: Mode, generation: Generation,
    refresh: Token, refreshExpire: int, access: Token, accessExpire: int,
    sts: Token, stsExpire: int)

  /** What the transaction reads off the configuration (NativeOAuthProfileState). */
  datatype ProfileState = ProfileState(configExisted: bool, found: bool, login: Generation, auth: Digest)

  /** The configuration file: the profile's part, its source generation, and all the rest. */
  datatype Doc = Doc(found: bool, auth: Digest, source: Generation, rest: nat)

  function StateOf(c: Option<Doc>): ProfileState {
    match c
    case None => ProfileState(false, false, 0, Digest(0, 0))
    case Some(d) => ProfileState(true, d.found, d.auth.login, d.auth)
  }

  /** nativeOAuthTransactionRecord; `previous` is HadPrevious and Previous in one. */
  datatype Record = Record(
    profile: nat, resolved: nat, before: ProfileState,
    newLogin: Generation, newAuth: Digest,
    previous: Option<Entry>, next: Entry)

  function NewState(r: Record): ProfileState {
    ProfileState(true, true, r.newLogin, r.newAuth)
  }

  /** validateNativeOAuthTransaction, on both the write and the read of a journal. */
  predicate ValidRecord(r: Record) {
    && r.newLogin != 0
    && r.next.mode == OAuth && r.next.generation != 0
    && (r.previous.Some? ==> r.previous.value.generation != 0)
  }

  predicate IsNew(r: Record, c: Option<Doc>) {
    StateOf(c) == NewState(r)
  }

  predicate IsOld(r: Record, c: Option<Doc>) {
    StateOf(c) == r.before
  }

  predicate Owns(owner: Entry, e: Option<Entry>) {
    e.Some? && e.value.generation == owner.generation && e.value.mode == owner.mode
  }

  predicate AtNext(r: Record, e: Option<Entry>) {
    Owns(r.next, e)
  }

  predicate AtPrevious(r: Record, e: Option<Entry>) {
    if r.previous.None? then e.None? else Owns(r.previous.value, e)
  }

  // ------------------------------------------------------------------
  // What recovery does, as a function of what it can see.

  datatype Visible = Visible(cfg: Option<Doc>, cch: Option<Entry>, jnl: Option<Record>, profile: nat, resolved: nat)

  /** The cache already is where it should be, must be rewritten, or belongs to someone else. */
  datatype CacheStep = Done | Put(entry: Option<Entry>) | Refuse

  /** installNativeOAuthTransactionNext together with the conditional store it calls. */
  function TowardNext(r: Record, e: Option<Entry>): CacheStep {
    match e
    case None => Put(Some(r.next))
    case Some(current) =>
      if current.generation == r.next.generation then
        if current.mode == r.next.mode then Done else Refuse
      else if r.previous.None? || current.generation != r.previous.value.generation then Refuse
      else if current.mode != r.next.mode then Refuse
      else Put(Some(r.next))
  }

  /** restoreNativeOAuthTransactionPrevious together with the stores it calls. */
  function TowardPrevious(r: Record, e: Option<Entry>): CacheStep {
    match r.previous
    case Some(previous) =>
      (match e
       case None => Put(r.previous)
       case Some(current) =>
         if current.generation == previous.generation then
           if current.mode == previous.mode then Done else Refuse
         else if current.generation != r.next.generation then Refuse
         else if current.mode != previous.mode then Refuse
         else Put(r.previous))
    case None =>
      (match e
       case None => Done
       case Some(current) =>
         if current.generation != r.next.generation then Refuse else Put(None))
  }

  /** Only a configuration at its own path and at the new generation is rolled forward. */
  predicate RollsForward(r: Record, v: Visible) {
    v.resolved == r.resolved && IsNew(r, v.cfg)
  }

  function CacheStepFor(r: Record, v: Visible): CacheStep {
    if RollsForward(r, v) then TowardNext(r, v.cch) else TowardPrevious(r, v.cch)
  }

  /** A journal is there, well formed, and belongs to this profile. */
  predicate Readable(v: Visible) {
    v.jnl.Some? && v.jnl.value.profile == v.profile && ValidRecord(v.jnl.value)
  }

  /** The next change recovery makes to what is visible, if it makes one. */
  function NextVisible(v: Visible): Option<Visible> {
    if !Readable(v) then None
    else
      match CacheStepFor(v.jnl.value, v)
      case Done => Some(v.(jnl := None))
      case Put(entry) => Some(v.(cch := entry))
      case Refuse => None
  }

  /** Where an uninterrupted recovery ends. */
  function Final(v: Visible): Visible {
    match NextVisible(v)
    case None => v
    case Some(v1) =>
      match NextVisible(v1)
      case None => v1
      case Some(v2) => v2
  }

  /**
   * Recovery can be stopped after any of its writes and started again: the end
   * is the same, and a finished recovery has nothing left to do.
   */
  lemma RecoveryRestarts(v: Visible)
    ensures NextVisible(Final(v)).None?
    ensures NextVisible(v).Some? ==> Final(NextVisible(v).value) == Final(v)
  {
  }

  /** The end of recovery in one line: settle the cache, then drop the journal. */
  lemma FinalByStep(v: Visible)
    requires Readable(v)
    ensures
      match CacheStepFor(v.jnl.value, v)
      case Done => Final(v) == v.(jnl := None)
      case Put(entry) => Final(v) == v.(cch := entry, jnl := None)
      case Refuse => Final(v) == v
  {
  }

  /**
   * Where every recovery ends, said without the branches above.  A log record
   * that is not of this profile or not well formed is left alone.  Under the new
   * configuration a missing or previous entry gives way to the next one, which
   * is kept where it already is; under any other configuration a missing or next
   * entry gives way to the previous one, or goes if there was none.  Any other
   * entry, and an entry of the wrong mode, is left alone with the log record.
   */
  lemma RecoveryTable(v: Visible)
    requires v.jnl.Some?
    ensures
      var r := v.jnl.value;
      var formed := r.newLogin != 0 && r.next.mode == OAuth && r.next.generation != 0
                    && (r.previous.Some? ==> r.previous.value.generation != 0);
      var isNew := v.resolved == r.resolved && v.cfg.Some? && v.cfg.value.found
                   && v.cfg.value.auth == r.newAuth && v.cfg.value.auth.login == r.newLogin;
      var kept, installed, restored := v.(jnl := None), v.(cch := Some(r.next), jnl := None),
                                       v.(cch := r.previous, jnl := None);
      Final(v) ==
      if r.profile != v.profile || !formed then v
      else
        match (isNew, v.cch)
        case (true, None) => installed
        case (true, Some(e)) =>
          if e.generation == r.next.generation then (if e.mode == OAuth then kept else v)
          else if r.previous.Some? && e.generation == r.previous.value.generation && e.mode == OAuth then installed
          else v
        case (false, None) => restored
        case (false, Some(e)) =>
          if r.previous.Some? && e.generation == r.previous.value.generation
          then (if e.mode == r.previous.value.mode then kept else v)
          else if e.generation == r.next.generation && (r.previous.Some? ==> e.mode == r.previous.value.mode)
          then restored
          else v
  {
    if Readable(v) {
      FinalByStep(v);
    }
  }

  /**
   * Recovery never touches an entry that is neither the previous nor the next
   * one, and never rewrites an entry that already has the wanted generation,
   * so a token rotated since is never rolled back.
   */
  lemma RecoveryRespectsOwners(v: Visible)
    requires v.jnl.Some?
    ensures
      var r := v.jnl.value;
      var wanted := if RollsForward(r, v) then Some(r.next) else r.previous;
      && Final(v).cfg == v.cfg
      && (v.cch.Some?
          && v.cch.value.generation != r.next.generation
          && (r.previous.Some? ==> v.cch.value.generation != r.previous.value.generation)
          ==> Final(v) == v)
      && (v.cch.Some? && wanted.Some? && v.cch.value.generation == wanted.value.generation
          ==> Final(v).cch == v.cch)
  {
  }

  /** A recovery that gets to the end leaves no journal and the cache where the configuration wants it. */
  lemma RecoveryAgrees(v: Visible)
    requires v.jnl.Some? && Final(v).jnl.None?
    ensures
      var r := v.jnl.value;
      if RollsForward(r, v) then AtNext(r, Final(v).cch) else AtPrevious(r, Final(v).cch)
  {
  }

  // ------------------------------------------------------------------
  // The world and what may happen in it.

  /**
   * The three files, plus bookkeeping that no program reads: the login whose
   * fate is at stake, whether the lock holder is the one that makes it
   * (`writing`), whether the lock holder has seen its configuration in
   * place after making it durable (`confirmed`), whether that configuration was
   * saved at all (`renewed`), the logins of which another process has since
   * brought back the state before them (`reverted`), and the login generation
   * drawn last; and the token service's books: the last refresh token issued for each generation, the
   * rotation that the lock holder has been answered but has not yet made
   * durable, and the generations whose last token was lost because such a run
   * stopped or failed.
   */
  datatype World = World(
    cfg: Cell<Doc>, cch: Cell<Entry>, jnl: Cell<Record>, profile: nat, resolved: nat,
    attempt: Record, writing: bool, confirmed: bool, renewed: bool, reverted: set<Record>, drawn: Generation,
    issued: map<Generation, Token>, pending: Option<Generation>, unsettled: set<Generation>)

  function See(w: World): Visible {
    Visible(w.cfg.now, w.cch.now, w.jnl.now, w.profile, w.resolved)
  }

  datatype Action =
    | SyncConfig
    | SyncCache
    | SyncJournal
    | WriteJournal(record: Record)    // configure: the log record becomes visible
    | CommitNext                      // configure: the prepared cache entry
    | WriteConfig(doc: Doc)           // configure: the new configuration
    | Confirm                         // recovery has read the new configuration again after its sync
    | InstallNext                     // recovery, rolling forward
    | RestorePrevious                 // recovery, rolling back
    | DropJournal                     // recovery, last step
    | Login(generation: Generation, token: Token, login: Generation)
    | Answer(token: Token)            // the service rotates the token in the cache
    | RefreshCache(entry: Entry)      // a provider stores the rotated token or its STS result
    | Exchange(access: Token)         // a provider spends the access token
    | TouchConfig(doc: Doc)           // another process saves unrelated settings
    | ChangeConfig(doc: Doc)          // another process saves other authentication for the profile
    | Unlock                          // the profile lock is released, or its holder dies
    | PowerLoss(config: Option<Doc>, cache: Option<Entry>, journal: Option<Record>)

  predicate Fresh(w: World, e: Entry) {
    e.generation in w.issued && w.issued[e.generation] == e.refresh
  }

  function ReleaseLock(w: World): World {
    match w.pending
    case None => w.(writing := false, confirmed := false)
    case Some(g) => w.(writing := false, confirmed := false, pending := None, unsettled := w.unsettled + {g})
  }

  /** Nothing that the configuration may be carries this login generation. */
  predicate Unused(login: Generation, c: Cell<Doc>) {
    forall d :: d in c.maybe ==> StateOf(d).login != login
  }

  predicate OfGeneration(r: Record, generation: Generation) {
    r.next.generation == generation || (r.previous.Some? && r.previous.value.generation == generation)
  }

  /** No entry on the disk, in the cache or in a journal, is of this generation. */
  predicate NewGeneration(generation: Generation, w: World) {
    && (forall e :: e in w.cch.maybe && e.Some? ==> e.value.generation != generation)
    && (forall j :: j in w.jnl.maybe && j.Some? ==> !OfGeneration(j.value, generation))
  }

  /** No entry on the disk carries this token. */
  predicate NewToken(token: Token, w: World) {
    && (forall e :: e in w.cch.maybe && e.Some? ==> e.value.refresh != token)
    && (forall j :: j in w.jnl.maybe && j.Some? ==>
          j.value.next.refresh != token && (j.value.previous.Some? ==> j.value.previous.value.refresh != token))
  }

  /**
   * What the code has checked before each action.  Other processes hold no lock
   * of the profile.  Of them it is assumed that they do not draw the random
   * generation of a login, and so never produce the state that it writes; of the
   * token service, that it gives out no token that it has given out before.
   */
  predicate Enabled(a: Action, w: World) {
    match a
    case SyncConfig => true
    case SyncCache => true
    case SyncJournal => true
    case Unlock => true
    case WriteJournal(r) =>
      && w.jnl.now.None?
      && ValidRecord(r) && r.profile == w.profile && r.resolved == w.resolved
      // `before` may be out of date by now, but is not what the login will write.
      && r.before != NewState(r) && r.previous == w.cch.now
      && Fresh(w, r.next)
      && r.newLogin == w.drawn && Unused(r.newLogin, w.cfg)
      && NewGeneration(r.next.generation, w) && w.pending.None?
    case CommitNext =>
      && w.writing
      && w.jnl.now == Some(w.attempt) && Durable(w.jnl)
      && w.cch.now == w.jnl.now.value.previous
      && (w.cch.now.Some? ==> w.cch.now.value.mode == OAuth)
      && Fresh(w, w.jnl.now.value.next)
    case WriteConfig(d) =>
      && w.writing
      && w.jnl.now == Some(w.attempt) && Durable(w.jnl)
      && IsOld(w.jnl.now.value, w.cfg.now) && IsNew(w.jnl.now.value, Some(d))
      && Durable(w.cch) && AtNext(w.jnl.now.value, w.cch.now)
    case Confirm =>
      && Readable(See(w)) && RollsForward(w.jnl.now.value, See(w))
      && AllNew(w.jnl.now.value, w)
    case InstallNext =>
      && Readable(See(w)) && w.confirmed
      && TowardNext(w.jnl.now.value, w.cch.now).Put?
    case RestorePrevious =>
      && Readable(See(w)) && !w.confirmed && !RollsForward(w.jnl.now.value, See(w))
      && TowardPrevious(w.jnl.now.value, w.cch.now).Put?
    case DropJournal =>
      && Readable(See(w)) && Durable(w.cch)
      && (if w.confirmed then AtNext(w.jnl.now.value, w.cch.now)
          else !RollsForward(w.jnl.now.value, See(w)) && AtPrevious(w.jnl.now.value, w.cch.now))
    case Login(g, t, login) =>
      && g !in w.issued && g !in w.unsettled && w.pending != Some(g)
      && (login != 0 ==> Unused(login, w.cfg))
    case Answer(t) =>
      && w.jnl.now.None? && w.pending.None?
      && w.cch.now.Some? && w.cch.now.value.mode == OAuth
      && Fresh(w, w.cch.now.value)   // a one-time token is accepted once
      && NewToken(t, w)
    case RefreshCache(e) =>
      && w.jnl.now.None? && Owns(e, w.cch.now)
      && (e.refresh == w.cch.now.value.refresh || (w.pending == Some(e.generation) && Fresh(w, e)))
    case Exchange(_) => w.pending.None?
    case TouchConfig(d) => StateOf(Some(d)) == StateOf(w.cfg.now)
    case ChangeConfig(d) =>
      && !IsNew(w.attempt, Some(d))
      && (forall j :: j in w.jnl.maybe && j.Some? ==> !IsNew(j.value, Some(d)))
      && (d.auth.login == w.drawn && w.drawn != 0 ==> StateOf(w.cfg.now).login == w.drawn)
    case PowerLoss(c, e, j) => c in w.cfg.maybe && e in w.cch.maybe && j in w.jnl.maybe
  }

  function Effect(a: Action, w: World): World {
    match a
    case SyncConfig => w.(cfg := Settled(w.cfg))
    case SyncCache =>
      var synced := w.(cch := Settled(w.cch));
      if w.cch.now.Some? && Fresh(w, w.cch.now.value) then
        var g := w.cch.now.value.generation;
        synced.(unsettled := w.unsettled - {g}, pending := if w.pending == Some(g) then None else w.pending)
      else synced
    case SyncJournal => w.(jnl := Settled(w.jnl))
    case WriteJournal(r) => w.(jnl := Renamed(w.jnl, Some(r)), attempt := r,
                                  writing := true, confirmed := false, renewed := false)
    case CommitNext => if w.jnl.now.Some? then w.(cch := Renamed(w.cch, Some(w.jnl.now.value.next))) else w
    case WriteConfig(d) => w.(cfg := Renamed(w.cfg, Some(d)), renewed := true)
    case Confirm => w.(confirmed := true)
    case InstallNext => if w.jnl.now.Some? then w.(cch := Renamed(w.cch, Some(w.jnl.now.value.next))) else w
    case RestorePrevious => if w.jnl.now.Some? then w.(cch := Renamed(w.cch, w.jnl.now.value.previous)) else w
    case DropJournal => w.(jnl := Renamed(w.jnl, None), writing := false, confirmed := false)
    case Login(g, t, login) => w.(issued := w.issued[g := t], drawn := login)
    case Answer(t) =>
      if w.cch.now.None? then w
      else w.(issued := w.issued[w.cch.now.value.generation := t], pending := Some(w.cch.now.value.generation))
    case RefreshCache(e) => w.(cch := Renamed(w.cch, Some(e)))
    case Exchange(_) => w
    case TouchConfig(d) => w.(cfg := Renamed(w.cfg, Some(d)))
    case ChangeConfig(d) =>
      var back := w.renewed && IsOld(w.attempt, Some(d));
      w.(cfg := Renamed(w.cfg, Some(d)), reverted := if back then w.reverted + {w.attempt} else w.reverted)
    case Unlock => ReleaseLock(w)
    case PowerLoss(c, e, j) =>
      var found := if j.Some? then j.value else w.attempt;
      ReleaseLock(w).(cfg := Cell(c, {c}), cch := Cell(e, {e}), jnl := Cell(j, {j}),
                      attempt := found, renewed := (w.renewed || found != w.attempt) && !IsOld(found, c))
  }

  function Exec(w: World, run: seq<Action>): World {
    if run == [] then w else Effect(run[|run| - 1], Exec(w, run[..|run| - 1]))
  }

  predicate AllEnabled(w: World, run: seq<Action>) {
    run == [] ||
    (AllEnabled(w, run[..|run| - 1]) && Enabled(run[|run| - 1], Exec(w, run[..|run| - 1])))
  }

  lemma EmptyRun(w: World)
    ensures AllEnabled(w, []) && Exec(w, []) == w && Disciplined(w, [])
  {
  }

  /** What a sync of the cache touches. */
  lemma SyncCacheOnly(w: World)
    ensures Enabled(SyncCache, w)
    ensures
      var w' := Effect(SyncCache, w);
      && w' == w.(cch := Settled(w.cch), pending := w'.pending, unsettled := w'.unsettled)
      && w'.unsettled <= w.unsettled && (w.pending.None? ==> w'.pending.None?)
  {
  }

  /** A run is extended at its end. */
  lemma Extend(w: World, end: World, run: seq<Action>, a: Action) returns (end': World, run': seq<Action>)
    requires AllEnabled(w, run) && end == Exec(w, run) && Enabled(a, end)
    ensures run' == run + [a] && AllEnabled(w, run') && end' == Exec(w, run') == Effect(a, end)
  {
    run' := run + [a];
    assert run'[..|run'| - 1] == run;
    end' := Effect(a, end);
  }

  /** Every beginning of a run of enabled actions is one. */
  lemma {:induction false} Beginning(w: World, run: seq<Action>, k: nat)
    requires AllEnabled(w, run) && k <= |run|
    ensures AllEnabled(w, run[..k])
  {
    if k == |run| {
      assert run[..k] == run;
    } else {
      Beginning(w, run[..|run| - 1], k);
      assert run[..|run| - 1][..k] == run[..k];
    }
  }

  // ------------------------------------------------------------------
  // The invariant.

  /** What every value of a file that a power loss may leave says about the attempt `r`. */
  predicate AllNew(r: Record, w: World) { forall c :: c in w.cfg.maybe ==> IsNew(r, c) }

  predicate NoneNew(r: Record, w: World) { forall c :: c in w.cfg.maybe ==> !IsNew(r, c) }

  predicate NoneOld(r: Record, w: World) { forall c :: c in w.cfg.maybe ==> !IsOld(r, c) }

  predicate AllPrevious(r: Record, w: World) { forall e :: e in w.cch.maybe ==> AtPrevious(r, e) }

  predicate AllNext(r: Record, w: World) { forall e :: e in w.cch.maybe ==> AtNext(r, e) }

  /**
   * A new configuration has the next cache entry beside it, and an old one the
   * previous, unless another process has gone back to the old one since.
   */
  predicate Agrees(r: Record, w: World, c: Option<Doc>, e: Option<Entry>) {
    (IsNew(r, c) ==> AtNext(r, e)) && (IsOld(r, c) && r !in w.reverted ==> AtPrevious(r, e))
  }

  /** Configuration and cache agree, whatever a power loss does now. */
  predicate Agreement(r: Record, w: World) {
    forall c, e :: c in w.cfg.maybe && e in w.cch.maybe ==> Agrees(r, w, c, e)
  }

  predicate Undone(r: Record, w: World) {
    AllPrevious(r, w) && NoneNew(r, w)
  }

  /** The login's configuration was saved, and whoever has the old one again went back to it. */
  predicate Renewed(r: Record, w: World) {
    (w.renewed && NoneOld(r, w)) || r in w.reverted
  }

  /** A journal with this record can be recovered from whatever a power loss leaves beside it. */
  predicate Recoverable(r: Record, w: World) {
    && r.profile == w.profile && r.resolved == w.resolved && ValidRecord(r)
    && r.before != NewState(r)
    && (r.previous.Some? ==> r.previous.value.generation != r.next.generation)
    && (forall e :: e in w.cch.maybe ==> AtPrevious(r, e) || AtNext(r, e))
    && (Undone(r, w) || (r.previous.Some? ==> r.previous.value.mode == OAuth))
  }

  predicate JournalsOk(w: World) {
    && Recoverable(w.attempt, w)
    && (forall j :: j in w.jnl.maybe && j.Some? ==> Recoverable(j.value, w))
  }

  /** No journal is visible: the attempt is done or undone.  One is: it is durable, or nothing has happened yet. */
  predicate LogComesFirst(w: World) {
    var r := w.attempt;
    && (w.jnl.now.Some? ==> w.jnl.now == Some(r))
    && (w.jnl.now.None? ==> Undone(r, w) || (AllNext(r, w) && Renewed(r, w)))
    && (w.jnl.now.Some? ==> Undone(r, w) || w.jnl.maybe == {Some(r)})
    && (w.confirmed ==> w.jnl.maybe == {Some(r)} && Renewed(r, w))
  }

  predicate Inv(w: World) {
    && CellOk(w.cfg) && CellOk(w.cch) && CellOk(w.jnl)
    && JournalsOk(w)
    && (!NoneNew(w.attempt, w) ==> w.renewed)
    && (IsOld(w.attempt, w.cfg.now) && w.attempt !in w.reverted ==> NoneNew(w.attempt, w))
    && LogComesFirst(w)
  }

  // ------------------------------------------------------------------
  // The one step that can break it: the journal is dropped after a roll back,
  // while a power loss may still bring back the new configuration.

  /** Recovery drops the journal without having confirmed the new configuration. */
  predicate DropsUnconfirmed(a: Action, w: World) {
    a.DropJournal? && !w.confirmed
  }

  predicate SafeStep(a: Action, w: World) {
    DropsUnconfirmed(a, w) ==> NoneNew(w.attempt, w)
  }

  lemma SyncKeepsInv(a: Action, w: World)
    requires Inv(w) && (a.SyncConfig? || a.SyncJournal?)
    ensures Inv(Effect(a, w))
  {
  }

  lemma SyncCacheKeepsInv(w: World)
    requires Inv(w)
    ensures Inv(Effect(SyncCache, w))
  {
    hide Effect;
    SyncCacheOnly(w);
  }

  lemma LockKeepsInv(a: Action, w: World)
    requires Inv(w) && (a.Unlock? || a.Confirm?) && Enabled(a, w)
    ensures Inv(Effect(a, w))
  {
  }

  lemma PowerLossKeepsInv(a: Action, w: World)
    requires Inv(w) && a.PowerLoss? && Enabled(a, w)
    ensures Inv(Effect(a, w))
  {
  }

  lemma WriteJournalKeepsInv(a: Action, w: World)
    requires Inv(w) && a.WriteJournal? && Enabled(a, w)
    ensures Inv(Effect(a, w))
  {
  }

  lemma CommitKeepsInv(a: Action, w: World)
    requires Inv(w) && (a.CommitNext? || a.WriteConfig?) && Enabled(a, w)
    ensures Inv(Effect(a, w))
  {
  }

  lemma RecoveryKeepsInv(a: Action, w: World)
    requires Inv(w) && (a.InstallNext? || a.RestorePrevious? || a.DropJournal?) && Enabled(a, w) && SafeStep(a, w)
    ensures Inv(Effect(a, w))
  {
  }

  lemma ServiceKeepsInv(a: Action, w: World)
    requires Inv(w) && (a.Login? || a.Answer? || a.Exchange?) && Enabled(a, w)
    ensures Inv(Effect(a, w))
  {
    hide NewToken, Unused;
  }

  lemma RefreshKeepsInv(a: Action, w: World)
    requires Inv(w) && a.RefreshCache? && Enabled(a, w)
    ensures Inv(Effect(a, w))
  {
  }

  lemma OthersKeepInv(a: Action, w: World)
    requires Inv(w) && (a.TouchConfig? || a.ChangeConfig?) && Enabled(a, w)
    ensures Inv(Effect(a, w))
  {
  }

  lemma ActionKeepsInv(a: Action, w: World)
    requires Inv(w) && Enabled(a, w) && SafeStep(a, w)
    ensures Inv(Effect(a, w))
  {
    hide *;
    match a
    case SyncConfig | SyncJournal => SyncKeepsInv(a, w);
    case SyncCache => SyncCacheKeepsInv(w);
    case Unlock | Confirm => LockKeepsInv(a, w);
    case PowerLoss(_, _, _) => PowerLossKeepsInv(a, w);
    case WriteJournal(_) => WriteJournalKeepsInv(a, w);
    case CommitNext | WriteConfig(_) => CommitKeepsInv(a, w);
    case InstallNext | RestorePrevious | DropJournal => RecoveryKeepsInv(a, w);
    case Login(_, _, _) | Answer(_) | Exchange(_) => ServiceKeepsInv(a, w);
    case RefreshCache(_) => RefreshKeepsInv(a, w);
    case TouchConfig(_) | ChangeConfig(_) => OthersKeepInv(a, w);
  }

  /** A disk at rest is a starting point for any attempt whose generations are new to it. */
  lemma QuietDiskStarts(w: World)
    requires Durable(w.cfg) && Durable(w.cch) && w.jnl == Cell(None, {None}) && !w.confirmed
    requires w.attempt.before == StateOf(w.cfg.now) && w.attempt.previous == w.cch.now
    requires w.attempt.profile == w.profile && w.attempt.resolved == w.resolved && ValidRecord(w.attempt)
    requires !IsNew(w.attempt, w.cfg.now)
    requires w.cch.now.Some? ==> w.cch.now.value.generation != w.attempt.next.generation
    ensures Inv(w)
  {
  }

  /** Where a power loss may leave no journal, configuration and cache agree. */
  lemma QuietMeansAgreement(w: World)
    requires Inv(w) && None in w.jnl.maybe
    ensures Agreement(w.attempt, w)
  {
  }

  /** While the old configuration is visible, not again but still, no power loss can bring in the new one. */
  lemma OldMeansNoneNew(w: World, r: Record)
    requires Inv(w) && w.jnl.now == Some(r) && IsOld(r, w.cfg.now) && w.attempt !in w.reverted
    ensures r == w.attempt && NoneNew(r, w)
  {
  }

  // ------------------------------------------------------------------
  // Safety over whole runs.

  /**
   * Looking back from the end of the run, the configuration file was last
   * synced, or found again after a power loss, when readers no longer saw the
   * new configuration; or they never saw it.
   */
  predicate SyncedSinceNew(w: World, run: seq<Action>, r: Record) {
    && !IsNew(r, Exec(w, run).cfg.now)
    && (run != [] && !run[|run| - 1].SyncConfig? && !run[|run| - 1].PowerLoss? ==>
          SyncedSinceNew(w, run[..|run| - 1], r))
  }

  /** Every journal dropped after a roll back was dropped when the configuration was synced since. */
  predicate Disciplined(w: World, run: seq<Action>) {
    run == [] ||
    (var before := run[..|run| - 1];
     var end := Exec(w, before);
     && Disciplined(w, before)
     && (DropsUnconfirmed(run[|run| - 1], end) ==> SyncedSinceNew(w, before, end.attempt)))
  }

  lemma CellsStayOk(a: Action, w: World)
    requires CellOk(w.cfg) && Enabled(a, w)
    ensures CellOk(Effect(a, w).cfg)
    ensures if a.SyncConfig? || a.PowerLoss? then Durable(Effect(a, w).cfg)
            else Effect(a, w).cfg.maybe == w.cfg.maybe + {Effect(a, w).cfg.now}
  {
    hide NewToken, NewGeneration, Unused, Fresh, AtNext, AtPrevious;
  }

  /**
   * The history tells what a power loss may leave: the new configuration is
   * possible exactly if it was seen with no later sync or power loss that found
   * something else.
   */
  lemma {:induction false} PossibleExactlyIfSeen(w: World, run: seq<Action>, r: Record)
    requires Durable(w.cfg) && AllEnabled(w, run)
    ensures CellOk(Exec(w, run).cfg)
    ensures SyncedSinceNew(w, run, r) <==> NoneNew(r, Exec(w, run))
  {
    if run != [] {
      var k := |run| - 1;
      var end := Exec(w, run[..k]);
      PossibleExactlyIfSeen(w, run[..k], r);
      assert CellOk(end.cfg);
      CellsStayOk(run[k], end);
    }
  }

  lemma {:induction false} RunKeepsInv(w: World, run: seq<Action>)
    requires Inv(w) && Durable(w.cfg) && AllEnabled(w, run) && Disciplined(w, run)
    ensures Inv(Exec(w, run))
  {
    hide Inv, Enabled, Effect;
    if run != [] {
      var k := |run| - 1;
      var end := Exec(w, run[..k]);
      RunKeepsInv(w, run[..k]);
      PossibleExactlyIfSeen(w, run[..k], end.attempt);
      ActionKeepsInv(run[k], end);
    }
  }

  /**
   * Crash consistency.  Whatever was done, and wherever it stopped: where a
   * power loss may find a new configuration beside the previous entry, or an old
   * one beside the next, the journal of the attempt is durable; and where no
   * journal may be found, configuration and cache agree in every outcome.
   */
  lemma CrashConsistency(w: World, run: seq<Action>)
    requires Inv(w) && Durable(w.cfg) && AllEnabled(w, run) && Disciplined(w, run)
    ensures
      var end := Exec(w, run);
      && (None in end.jnl.maybe ==> Agreement(end.attempt, end))
      && (!Agreement(end.attempt, end) ==> end.jnl.maybe == {Some(end.attempt)})
  {
    hide Exec, AllEnabled, Disciplined;
    RunKeepsInv(w, run);
    var end := Exec(w, run);
    if None in end.jnl.maybe {
      QuietMeansAgreement(end);
    }
  }

  /** No power loss, at any moment of the run, leaves files that disagree with no journal beside them. */
  predicate AgreesThroughout(w: World, run: seq<Action>) {
    forall k :: 0 <= k <= |run| ==> AgreesIfQuiet(Exec(w, run[..k]))
  }

  predicate AgreesIfQuiet(w: World) {
    None in w.jnl.maybe ==> Agreement(w.attempt, w)
  }

  /**
   * The exact condition.  Configuration and cache agree after every power loss
   * that leaves no journal, at every moment of a run, if and only if each
   * journal that was dropped after a roll back was dropped with the
   * configuration file synced, or found after a power loss, since readers last
   * saw the new configuration.  The code syncs the configuration only before it
   * rolls forward, so a save by another process can break the condition.
   */
  lemma AgreementSurvivesIff(w: World, run: seq<Action>)
    requires Inv(w) && Durable(w.cfg) && AllEnabled(w, run)
    ensures AgreesThroughout(w, run) <==> Disciplined(w, run)
  {
    hide Inv, Enabled, Effect, Agreement, Exec, AllEnabled;
    if Disciplined(w, run) {
      forall k | 0 <= k <= |run| ensures AgreesIfQuiet(Exec(w, run[..k])) {
        BeginningDisciplined(w, run, k);
        Beginning(w, run, k);
        CrashConsistency(w, run[..k]);
      }
    } else {
      UndisciplinedDisagrees(w, run);
    }
  }

  lemma {:induction false} BeginningDisciplined(w: World, run: seq<Action>, k: nat)
    requires Disciplined(w, run) && k <= |run|
    ensures Disciplined(w, run[..k])
  {
    if k == |run| {
      assert run[..k] == run;
    } else {
      BeginningDisciplined(w, run[..|run| - 1], k);
      assert run[..|run| - 1][..k] == run[..k];
    }
  }

  lemma {:induction false} UndisciplinedDisagrees(w: World, run: seq<Action>)
    requires Inv(w) && Durable(w.cfg) && AllEnabled(w, run) && !Disciplined(w, run)
    ensures !AgreesThroughout(w, run)
  {
    hide Inv, Enabled, Effect, Agreement;
    var n := |run| - 1;
    var before := run[..n];
    if Disciplined(w, before) {
      var end := Exec(w, before);
      RunKeepsInv(w, before);
      PossibleExactlyIfSeen(w, before, end.attempt);
      DroppedTooEarly(run[n], end);
      assert run[..n + 1] == run;
    } else {
      UndisciplinedDisagrees(w, before);
      var k :| 0 <= k <= n && !AgreesIfQuiet(Exec(w, before[..k]));
      assert run[..k] == before[..k];
    }
  }

  /** The step that breaks it: what is dropped now cannot be redone when the new configuration comes back. */
  lemma DroppedTooEarly(a: Action, w: World)
    requires Inv(w) && Enabled(a, w) && !SafeStep(a, w)
    ensures !AgreesIfQuiet(Effect(a, w))
  {
    var c :| c in w.cfg.maybe && IsNew(w.attempt, c);
    var end := Effect(a, w);
    assert end.attempt == w.attempt && c in end.cfg.maybe && w.cch.now in end.cch.maybe;
    assert !Agrees(w.attempt, end, c, w.cch.now);
  }

  /** What makes the new configuration visible again, or puts another login at stake. */
  predicate Reopens(a: Action) {
    a.WriteConfig? || a.WriteJournal? || a.PowerLoss?
  }

  /** One sync, made once readers see something else, is all that a roll back needs in front of it. */
  lemma {:induction false} SyncInFrontSuffices(w: World, run: seq<Action>, k: nat)
    requires AllEnabled(w, run) && k < |run| && run[k].SyncConfig?
    requires forall i :: k < i < |run| ==> !Reopens(run[i])
    ensures
      var seen := Exec(w, run[..k + 1]);
      !IsNew(seen.attempt, seen.cfg.now) ==>
        Exec(w, run).attempt == seen.attempt && SyncedSinceNew(w, run, seen.attempt)
  {
    hide Enabled, Effect;
    var n := |run| - 1;
    if k == n {
      assert run[..k + 1] == run;
    } else {
      assert run[..n][..k + 1] == run[..k + 1];
      SyncInFrontSuffices(w, run[..n], k);
      StaysOther(run[n], Exec(w, run[..n]));
    }
  }

  lemma StaysOther(a: Action, w: World)
    requires Enabled(a, w) && !Reopens(a)
    ensures Effect(a, w).attempt == w.attempt
    ensures !IsNew(w.attempt, w.cfg.now) ==> !IsNew(w.attempt, Effect(a, w).cfg.now)
  {
  }

  predicate ForeignSave(a: Action) {
    a.ChangeConfig?
  }

  /** Recovery rolls back: it puts the previous entry in place, or drops the journal after that. */
  predicate RollsBack(a: Action, w: World) {
    (a.RestorePrevious? || a.DropJournal?) && !w.confirmed
  }

  /** Every roll back, from the first entry it puts in place, came with the configuration synced since. */
  predicate Careful(w: World, run: seq<Action>) {
    run == [] ||
    (var before := run[..|run| - 1];
     var end := Exec(w, before);
     && Careful(w, before)
     && (RollsBack(run[|run| - 1], end) ==> SyncedSinceNew(w, before, end.attempt)))
  }

  lemma {:induction false} CarefulIsDisciplined(w: World, run: seq<Action>)
    requires Careful(w, run)
    ensures Disciplined(w, run)
  {
    if run != [] {
      CarefulIsDisciplined(w, run[..|run| - 1]);
    }
  }

  /** With no other authentication saved meanwhile every run is disciplined, and careful about whole roll backs. */
  lemma {:induction false} WithoutForeignSaves(w: World, run: seq<Action>)
    requires Inv(w) && Durable(w.cfg) && AllEnabled(w, run)
    requires forall i :: 0 <= i < |run| ==> !ForeignSave(run[i])
    ensures Disciplined(w, run) && Careful(w, run) && Inv(Exec(w, run))
    ensures var end := Exec(w, run); IsNew(end.attempt, end.cfg.now) || NoneNew(end.attempt, end)
  {
    hide Inv, Enabled, Effect;
    if run != [] {
      var k := |run| - 1;
      var end := Exec(w, run[..k]);
      WithoutForeignSaves(w, run[..k]);
      PossibleExactlyIfSeen(w, run[..k], end.attempt);
      NewIsSeen(run[k], end);
      ActionKeepsInv(run[k], end);
    }
  }

  lemma NewIsSeen(a: Action, w: World)
    requires Inv(w) && Enabled(a, w) && !ForeignSave(a)
    requires IsNew(w.attempt, w.cfg.now) || NoneNew(w.attempt, w)
    ensures SafeStep(a, w) && (RollsBack(a, w) ==> NoneNew(w.attempt, w))
    ensures var end := Effect(a, w); IsNew(end.attempt, end.cfg.now) || NoneNew(end.attempt, end)
  {
  }

  /**
   * From every state of a disciplined run an uninterrupted recovery gets to its
   * end: no cache entry is refused.  It then leaves no journal, and the cache at
   * the generation the visible configuration asks for.
   */
  lemma RecoveryNeverStuck(w: World, run: seq<Action>)
    requires Inv(w) && Durable(w.cfg) && AllEnabled(w, run) && Disciplined(w, run)
    ensures
      var end := Exec(w, run);
      var v := Final(See(end));
      && v.jnl.None? && v.cfg == end.cfg.now
      && Agrees(end.attempt, end, v.cfg, v.cch)
      && (end.jnl.now.Some? && !IsNew(end.attempt, v.cfg) ==> AtPrevious(end.attempt, v.cch))
  {
    RunKeepsInv(w, run);
    RecoveryEnds(Exec(w, run));
  }

  lemma RecoveryEnds(w: World)
    requires Inv(w)
    ensures
      var v := Final(See(w));
      && v.jnl.None? && v.cfg == w.cfg.now
      && Agrees(w.attempt, w, v.cfg, v.cch)
      && (w.jnl.now.Some? && !IsNew(w.attempt, v.cfg) ==> AtPrevious(w.attempt, v.cch))
  {
  }

  predicate OthersAction(a: Action) {
    a.TouchConfig? || a.ChangeConfig?
  }

  /** What the lock holder does without looking at the configuration again. */
  predicate LooksNoMore(a: Action) {
    && !OthersAction(a) && !a.PowerLoss? && !a.Login? && !a.Confirm? && !a.WriteConfig?
  }

  /**
   * A save by another process, durable or not, disables no step of the lock
   * holder that does not look at the configuration itself: what the code has
   * checked stays true, so such a save may come between any two of its steps.
   */
  lemma OthersDoNotDisable(a: Action, b: Action, w: World)
    requires CellOk(w.cfg) && CellOk(w.jnl) && Enabled(a, w) && LooksNoMore(a)
    requires OthersAction(b) && Enabled(b, w)
    ensures Enabled(a, Effect(b, w))
  {
  }

  lemma SyncCacheLeavesConfigAlone(w: World, cfg: Cell<Doc>, reverted: set<Record>)
    ensures
      Effect(SyncCache, w.(cfg := cfg, reverted := reverted)) ==
      Effect(SyncCache, w).(cfg := cfg, reverted := reverted)
  {
    hide Settled, Fresh;
    if w.cch.now.Some? {
      FreshByBooks(w, w.(cfg := cfg, reverted := reverted), w.cch.now.value);
    }
  }

  lemma FreshByBooks(w: World, w': World, e: Entry)
    requires w'.issued == w.issued
    ensures Fresh(w', e) == Fresh(w, e)
  {
  }

  lemma JournalLeavesConfigAlone(a: Action, w: World, cfg: Cell<Doc>, reverted: set<Record>)
    requires a.SyncJournal? || a.DropJournal? || a.Exchange? || a.Unlock?
    ensures Effect(a, w.(cfg := cfg, reverted := reverted)) == Effect(a, w).(cfg := cfg, reverted := reverted)
  {
    hide Renamed, Settled;
  }

  lemma CacheLeavesConfigAlone(a: Action, w: World, cfg: Cell<Doc>, reverted: set<Record>)
    requires a.CommitNext? || a.InstallNext? || a.RestorePrevious? || a.Answer? || a.RefreshCache?
    ensures Effect(a, w.(cfg := cfg, reverted := reverted)) == Effect(a, w).(cfg := cfg, reverted := reverted)
  {
    hide Renamed, Settled;
  }

  lemma SameConfig(a: Action, w: World)
    requires LooksNoMore(a) && !a.SyncConfig? && !a.WriteJournal?
    ensures
      var end := Effect(a, w);
      && end.cfg == w.cfg && end.reverted == w.reverted && end.attempt == w.attempt && end.renewed == w.renewed
  {
    hide Renamed, Settled, Fresh;
  }

  /** A step that leaves the configuration alone does the same whatever is in it. */
  lemma LeavesConfigAlone(a: Action, w: World, cfg: Cell<Doc>, reverted: set<Record>)
    requires LooksNoMore(a) && !a.SyncConfig? && !a.WriteJournal?
    ensures Effect(a, w.(cfg := cfg, reverted := reverted)) == Effect(a, w).(cfg := cfg, reverted := reverted)
  {
    hide Effect;
    match a
    case SyncCache => SyncCacheLeavesConfigAlone(w, cfg, reverted);
    case SyncJournal | DropJournal | Exchange(_) | Unlock => JournalLeavesConfigAlone(a, w, cfg, reverted);
    case _ => CacheLeavesConfigAlone(a, w, cfg, reverted);
  }

  lemma SavesConfigOnly(b: Action, w: World)
    requires OthersAction(b)
    ensures
      var back := b.ChangeConfig? && w.renewed && IsOld(w.attempt, Some(b.doc));
      Effect(b, w) ==
      w.(cfg := Renamed(w.cfg, Some(b.doc)), reverted := if back then w.reverted + {w.attempt} else w.reverted)
  {
  }

  /** It does not matter on which side of such a step the save comes. */
  lemma OthersCommute(a: Action, b: Action, w: World)
    requires LooksNoMore(a) && !a.SyncConfig? && !a.WriteJournal? && OthersAction(b)
    ensures Effect(a, Effect(b, w)) == Effect(b, Effect(a, w))
  {
    hide Effect, IsOld, Renamed;
    SameConfig(a, w);
    SavesConfigOnly(b, w);
    LeavesConfigAlone(a, w, Effect(b, w).cfg, Effect(b, w).reverted);
    SavesConfigOnly(b, Effect(a, w));
  }

  /** An unrelated save disables no step at all. */
  lemma UnrelatedSavesDoNotDisable(a: Action, d: Doc, w: World)
    requires CellOk(w.cfg) && CellOk(w.jnl) && Enabled(a, w) && !a.PowerLoss?
    requires Enabled(TouchConfig(d), w)
    ensures Enabled(a, Effect(TouchConfig(d), w))
  {
  }

  /** `r` becomes the configured login, or possible again, only by the login itself. */
  predicate NotByOthers(r: Record, w: World, w': World) {
    && (IsNew(r, w'.cfg.now) ==> IsNew(r, w.cfg.now) && (AllNew(r, w) ==> AllNew(r, w')))
    && (NoneNew(r, w) ==> NoneNew(r, w'))
  }

  /** What any number of saves by other processes can do while the lock holder is between two of its steps. */
  predicate Meanwhile(w: World, w': World) {
    && w' == w.(cfg := w'.cfg, reverted := w'.reverted) && w.reverted <= w'.reverted
    && NotByOthers(w.attempt, w, w')
    && (forall j :: j in w.jnl.maybe && j.Some? ==> NotByOthers(j.value, w, w'))
    && (w.renewed && !IsOld(w.attempt, w.cfg.now) && w.attempt !in w'.reverted ==> !IsOld(w.attempt, w'.cfg.now))
    && (w.drawn != 0 && Unused(w.drawn, w.cfg) ==> Unused(w.drawn, w'.cfg))
    && (Inv(w) ==> Inv(w'))
  }

  lemma MeanwhileBegins(w: World)
    ensures Meanwhile(w, w)
  {
  }

  lemma MeanwhileStep(a: Action, w: World)
    requires CellOk(w.cfg) && (OthersAction(a) || a.SyncConfig?) && Enabled(a, w)
    ensures Meanwhile(w, Effect(a, w))
  {
    hide Inv;
    if Inv(w) {
      ActionKeepsInv(a, w);
    }
  }

  lemma MeanwhileGoesOn(w0: World, w1: World, w2: World)
    requires Meanwhile(w0, w1) && Meanwhile(w1, w2)
    ensures Meanwhile(w0, w2)
  {
    hide Inv, IsNew, IsOld, AllNew, NoneNew, Unused;
  }

  predicate RecoveryAction(a: Action) {
    || a.SyncConfig? || a.SyncCache? || a.SyncJournal? || a.Unlock?
    || a.Confirm? || a.InstallNext? || a.RestorePrevious? || a.DropJournal?
  }

  /** What was confirmed is still what is visible. */
  predicate SeesConfirmed(w: World) {
    w.confirmed ==> Readable(See(w)) && RollsForward(w.jnl.now.value, See(w))
  }

  lemma RecoveryActionKeepsFinal(a: Action, w: World)
    requires RecoveryAction(a) && Enabled(a, w) && SeesConfirmed(w)
    ensures Final(See(Effect(a, w))) == Final(See(w)) && SeesConfirmed(Effect(a, w))
  {
  }

  /**
   * Restartability of whole runs: `run` up to `from` is any past, the rest is
   * recovery, stopped anywhere and started again by whoever takes the lock next,
   * any number of times.  A recovery started after it ends exactly where one
   * started at `from` would have ended.
   */
  lemma {:induction false} RecoveryKeepsFinal(w: World, run: seq<Action>, from: nat)
    requires AllEnabled(w, run) && from <= |run| && SeesConfirmed(Exec(w, run[..from]))
    requires forall i :: from <= i < |run| ==> RecoveryAction(run[i])
    ensures SeesConfirmed(Exec(w, run)) && Final(See(Exec(w, run))) == Final(See(Exec(w, run[..from])))
  {
    hide Enabled, Effect, Final, SeesConfirmed;
    var k := |run| - 1;
    if from == |run| {
      assert run[..from] == run;
    } else {
      assert run[..k][..from] == run[..from];
      RecoveryKeepsFinal(w, run[..k], from);
      RecoveryActionKeepsFinal(run[k], Exec(w, run[..k]));
    }
  }

  // ------------------------------------------------------------------
  // The condition is needed: another writer changes the profile's authentication,
  // and its save is visible but not durable.

  const PREVIOUS := Entry(OAuth, 1, 10, 0, 0, 0, 0, 0)
  const NEXT := Entry(OAuth, 2, 20, 0, 0, 0, 0, 0)
  const OLD_DOC := Doc(true, Digest(1, 1), 1, 0)
  const NEW_DOC := Doc(true, Digest(2, 2), 2, 0)
  const FOREIGN_DOC := Doc(true, Digest(0, 3), 3, 0)
  const RECORD :=
    Record(0, 0, ProfileState(true, true, 1, Digest(1, 1)), 2, Digest(2, 2), Some(PREVIOUS), NEXT)

  /** Everything durable, an older login in force, and no journal. */
  function QuietDisk(): World {
    World(
      Cell(Some(OLD_DOC), {Some(OLD_DOC)}), Cell(Some(PREVIOUS), {Some(PREVIOUS)}), Cell(None, {None}),
      0, 0, RECORD, false, false, false, {}, 0, map[1 := 10], None, {})
  }

  lemma QuietDiskIsQuiet()
    ensures Inv(QuietDisk()) && Durable(QuietDisk().cfg)
  {
  }

  /** A login over it has saved its configuration; the save is visible but not yet synced. */
  function SavedNotSynced(): World {
    World(
      Cell(Some(NEW_DOC), {Some(OLD_DOC), Some(NEW_DOC)}), Cell(Some(NEXT), {Some(NEXT)}),
      Cell(Some(RECORD), {Some(RECORD)}),
      0, 0, RECORD, true, false, true, {}, 2, map[1 := 10, 2 := 20], None, {})
  }

  /** The log record is durable and the next entry visible. */
  function CommittedNotSynced(): World {
    World(
      Cell(Some(OLD_DOC), {Some(OLD_DOC)}), Cell(Some(NEXT), {Some(PREVIOUS), Some(NEXT)}),
      Cell(Some(RECORD), {Some(RECORD)}),
      0, 0, RECORD, true, false, false, {}, 2, map[1 := 10, 2 := 20], None, {})
  }

  lemma LoginSteps()
    ensures
      var w1 := Effect(Login(2, 20, 2), QuietDisk());
      var w2 := Effect(WriteJournal(RECORD), w1);
      var w3 := Effect(SyncJournal, w2);
      && Enabled(Login(2, 20, 2), QuietDisk()) && Enabled(WriteJournal(RECORD), w1)
      && Enabled(SyncJournal, w2) && Enabled(CommitNext, w3)
      && Effect(CommitNext, w3) == CommittedNotSynced()
  {
  }

  lemma SaveSteps()
    ensures
      var w1 := Effect(SyncCache, CommittedNotSynced());
      && Enabled(SyncCache, CommittedNotSynced()) && Enabled(WriteConfig(NEW_DOC), w1)
      && Effect(WriteConfig(NEW_DOC), w1) == SavedNotSynced()
  {
  }

  /** Disciplined runs go on with any step but the dangerous one. */
  lemma ExtendSafely(w: World, end: World, run: seq<Action>, a: Action) returns (end': World, run': seq<Action>)
    requires AllEnabled(w, run) && end == Exec(w, run) && Enabled(a, end)
    requires Disciplined(w, run) && !DropsUnconfirmed(a, end)
    ensures AllEnabled(w, run') && Disciplined(w, run') && end' == Exec(w, run') == Effect(a, end)
  {
    end', run' := Extend(w, end, run, a);
    assert run'[..|run'| - 1] == run;
  }

  /** The run of a login up to its unsynced save. */
  lemma LoginRun() returns (run: seq<Action>)
    ensures AllEnabled(QuietDisk(), run) && Disciplined(QuietDisk(), run)
    ensures Exec(QuietDisk(), run) == SavedNotSynced()
  {
    hide AllEnabled, Disciplined, Exec, Enabled, Effect, Inv;
    hide QuietDisk, CommittedNotSynced, SavedNotSynced, RolledBack;
    LoginSteps();
    SaveSteps();
    var w := QuietDisk();
    EmptyRun(w);
    var end;
    end, run := ExtendSafely(w, w, [], Login(2, 20, 2));
    end, run := ExtendSafely(w, end, run, WriteJournal(RECORD));
    end, run := ExtendSafely(w, end, run, SyncJournal);
    end, run := ExtendSafely(w, end, run, CommitNext);
    end, run := ExtendSafely(w, end, run, SyncCache);
    end, run := ExtendSafely(w, end, run, WriteConfig(NEW_DOC));
  }

  /** Another process has changed the authentication, and recovery has put the previous entry back. */
  function RolledBack(): World {
    World(
      Cell(Some(FOREIGN_DOC), {Some(OLD_DOC), Some(NEW_DOC), Some(FOREIGN_DOC)}),
      Cell(Some(PREVIOUS), {Some(NEXT), Some(PREVIOUS)}), Cell(Some(RECORD), {Some(RECORD)}),
      0, 0, RECORD, true, false, true, {}, 2, map[1 := 10, 2 := 20], None, {})
  }

  lemma RollBackSteps()
    ensures
      var w1 := Effect(ChangeConfig(FOREIGN_DOC), SavedNotSynced());
      && Enabled(ChangeConfig(FOREIGN_DOC), SavedNotSynced()) && Enabled(RestorePrevious, w1)
      && Effect(RestorePrevious, w1) == RolledBack()
  {
  }

  lemma DropSteps()
    ensures
      var w1 := Effect(SyncCache, RolledBack());
      var w2 := Effect(DropJournal, w1);
      var loss := PowerLoss(Some(NEW_DOC), Some(PREVIOUS), None);
      var w3 := Effect(loss, w2);
      && Enabled(SyncCache, RolledBack()) && Enabled(DropJournal, w1) && Enabled(loss, w2)
      && w3.cfg.now == Some(NEW_DOC) && w3.cch.now == Some(PREVIOUS) && w3.jnl == Cell(None, {None})
  {
    hide NewToken, NewGeneration, Unused, TowardNext, TowardPrevious;
  }

  /** The failing case is real: from a quiet disk to a new configuration, the previous cache entry and no journal. */
  lemma ForeignConfigCanBreakAgreement() returns (run: seq<Action>)
    ensures Inv(QuietDisk()) && AllEnabled(QuietDisk(), run)
    ensures
      var end := Exec(QuietDisk(), run);
      && end.jnl == Cell(None, {None})
      && IsNew(RECORD, end.cfg.now) && end.cch.now == RECORD.previous && !AtNext(RECORD, end.cch.now)
  {
    hide AllEnabled, Disciplined, Exec, Enabled, Effect, Inv;
    hide QuietDisk, CommittedNotSynced, SavedNotSynced, RolledBack;
    QuietDiskIsQuiet();
    run := LoginRun();
    RollBackSteps();
    DropSteps();
    var w := QuietDisk();
    var end := SavedNotSynced();
    end, run := Extend(w, end, run, ChangeConfig(FOREIGN_DOC));
    end, run := Extend(w, end, run, RestorePrevious);
    end, run := Extend(w, end, run, SyncCache);
    end, run := Extend(w, end, run, DropJournal);
    end, run := Extend(w, end, run, PowerLoss(Some(NEW_DOC), Some(PREVIOUS), None));
  }

  /** Another process has gone back to the old authentication instead, and recovery has followed it. */
  function TakenBack(): World {
    World(
      Cell(Some(OLD_DOC), {Some(OLD_DOC), Some(NEW_DOC)}),
      Cell(Some(PREVIOUS), {Some(NEXT), Some(PREVIOUS)}), Cell(Some(RECORD), {Some(RECORD)}),
      0, 0, RECORD, true, false, true, {RECORD}, 2, map[1 := 10, 2 := 20], None, {})
  }

  lemma TakeBackSteps()
    ensures
      var w1 := Effect(ChangeConfig(OLD_DOC), SavedNotSynced());
      && Enabled(ChangeConfig(OLD_DOC), SavedNotSynced()) && Enabled(RestorePrevious, w1)
      && Effect(RestorePrevious, w1) == TakenBack()
  {
  }

  lemma DropTakenBackSteps()
    ensures
      var w1 := Effect(SyncCache, TakenBack());
      var w2 := Effect(DropJournal, w1);
      var loss := PowerLoss(Some(NEW_DOC), Some(PREVIOUS), None);
      var w3 := Effect(loss, w2);
      && Enabled(SyncCache, TakenBack()) && Enabled(DropJournal, w1) && Enabled(loss, w2)
      && w3.cfg.now == Some(NEW_DOC) && w3.cch.now == Some(PREVIOUS) && w3.jnl == Cell(None, {None})
  {
    hide NewToken, NewGeneration, Unused, TowardNext, TowardPrevious;
  }

  /** The same end, reached through the branch of recovery that reports success. */
  lemma TakingBackCanBreakAgreement() returns (run: seq<Action>)
    ensures Inv(QuietDisk()) && AllEnabled(QuietDisk(), run)
    ensures
      var end := Exec(QuietDisk(), run);
      && end.jnl == Cell(None, {None})
      && IsNew(RECORD, end.cfg.now) && end.cch.now == RECORD.previous && !AtNext(RECORD, end.cch.now)
  {
    hide AllEnabled, Disciplined, Exec, Enabled, Effect, Inv;
    hide QuietDisk, CommittedNotSynced, SavedNotSynced, TakenBack;
    QuietDiskIsQuiet();
    run := LoginRun();
    TakeBackSteps();
    DropTakenBackSteps();
    var w := QuietDisk();
    var end := SavedNotSynced();
    end, run := Extend(w, end, run, ChangeConfig(OLD_DOC));
    end, run := Extend(w, end, run, RestorePrevious);
    end, run := Extend(w, end, run, SyncCache);
    end, run := Extend(w, end, run, DropJournal);
    end, run := Extend(w, end, run, PowerLoss(Some(NEW_DOC), Some(PREVIOUS), None));
  }
}
