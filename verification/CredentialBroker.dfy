/**
 * pkg/aliyun/identity.go and pkg/aliyun/credential_broker.go: a broker that
 * serves a subprocess with credentials, renews them one refresh at a time, and
 * lets nobody's but the operation's own identity in.
 */
module CredentialBroker {
  import opened Common

  // ------------------------------------------------------------------
  // Snapshots and proofs.

  /** `rest` stands for the parts of an identity that are not compared. */
  datatype Identity = Identity(hash: string, kind: string, rest: int)

  datatype Proof = Proof(identity: Identity, accountId: string, endpoint: string, fingerprint: string)

  datatype Snapshot = Snapshot(
    accessKeyId: string, accessKeySecret: string, securityToken: string, expiresAt: Option<int>, proof: Option<Proof>)

  datatype Profile = Profile(expectedAccountId: string, expectedType: string, expectedHash: string)

  const REFRESH_WINDOW := 180

  /** snapshotExpired */
  predicate Expired(s: Snapshot, now: int) {
    s.expiresAt.Some? && now >= s.expiresAt.value
  }

  predicate Complete(s: Snapshot) {
    s.accessKeyId != "" && s.accessKeySecret != ""
  }

  /** credentialSnapshotFingerprint; the text stands for its digest. */
  function Fingerprint(s: Option<Snapshot>): string {
    if s == None || s.value.accessKeyId == "" then "" else s.value.accessKeyId + "\0" + s.value.securityToken
  }

  predicate Same(a: Identity, b: Identity) {
    a.hash == b.hash && a.kind == b.kind
  }

  /** validCredentialIdentityProof */
  function ValidProof(profile: Profile, s: Option<Snapshot>, endpoint: string): Option<Proof> {
    if s == None || s.value.proof == None then None
    else
      var proof := s.value.proof.value;
      if proof.endpoint != endpoint || proof.fingerprint == "" || proof.fingerprint != Fingerprint(s)
         || proof.identity.hash == "" || proof.identity.kind == "" then None
      else if profile.expectedAccountId != "" && proof.accountId != profile.expectedAccountId then None
      else if profile.expectedType != "" && proof.identity.kind != profile.expectedType then None
      else Some(proof)
  }

  // ------------------------------------------------------------------
  // The guard.

  datatype Guard = Guard(profile: Profile, domain: string, identity: Identity, fingerprint: string)

  datatype Validated = Validated(guard: Guard, snapshot: Option<Snapshot>, accepted: bool)

  /** The identity is one that the guard admits. */
  predicate Admits(g: Guard, i: Identity) {
    g.identity.hash != "" ==> Same(i, g.identity)
  }

  /** validateLocked; `answer` is what the identity service says, or None for its error. */
  function LockedValidation(g: Guard, s: Option<Snapshot>, answer: Option<Identity>): Validated {
    var proof := ValidProof(g.profile, s, g.domain);
    if proof.Some? then
      if g.profile.expectedHash != "" && proof.value.identity.hash != g.profile.expectedHash then Validated(g, s, false)
      else if !Admits(g, proof.value.identity) then Validated(g, s, false)
      else Validated(g.(identity := proof.value.identity, fingerprint := proof.value.fingerprint), s, true)
    else if answer == None then Validated(g, s, false)
    else if g.profile.expectedHash != ""
            && (answer.value.hash != g.profile.expectedHash || answer.value.kind != g.profile.expectedType) then
      Validated(g, s, false)
    else if !Admits(g, answer.value) then Validated(g, s, false)
    else
      var proved := Proof(answer.value, g.profile.expectedAccountId, g.domain, Fingerprint(s));
      var s' := if s.Some? then Some(s.value.(proof := Some(proved))) else None;
      Validated(g.(identity := answer.value, fingerprint := Fingerprint(s)), s', true)
  }

  /** Validate */
  function Validation(g: Guard, s: Option<Snapshot>, answer: Option<Identity>): Validated {
    if Fingerprint(s) != "" && Fingerprint(s) == g.fingerprint then Validated(g, s, true)
    else LockedValidation(g, s, answer)
  }

  function NewGuard(profile: Profile, domain: string): Guard {
    Guard(profile, domain, Identity("", "", 0), "")
  }

  class OperationIdentityGuard {
    const profile: Profile
    const domain: string
    var identity: Identity
    var fingerprint: string

    ghost function State(): Guard
      reads this
    {
      Guard(profile, domain, identity, fingerprint)
    }

    constructor (profile: Profile, domain: string)
      ensures State() == NewGuard(profile, domain)
    {
      this.profile, this.domain, identity, fingerprint := profile, domain, Identity("", "", 0), "";
    }

    /** newOperationIdentityGuard, for a profile whose identity endpoint is `domain`. */
    static method NewOperationIdentityGuard(profile: Profile, domain: string, snapshot: Option<Snapshot>,
                                            answer: Option<Identity>)
      returns (guard: OperationIdentityGuard?)
      ensures
        var v := LockedValidation(NewGuard(profile, domain), snapshot, answer);
        && (guard != null <==> snapshot.Some? && v.accepted)
        && (guard != null ==> fresh(guard) && guard.State() == v.guard)
    {
      if snapshot == None { return null; }
      guard := new OperationIdentityGuard(profile, domain);
      var accepted, _ := guard.ValidateLocked(snapshot, answer);
      if !accepted { return null; }
    }

    method Validate(snapshot: Option<Snapshot>, answer: Option<Identity>)
      returns (accepted: bool, snapshot': Option<Snapshot>)
      modifies this
      ensures Validated(State(), snapshot', accepted) == Validation(old(State()), snapshot, answer)
      // An identity, once set, stays; what is turned away changes nothing; what is
      // accepted keeps its keys.
      ensures old(identity).hash != "" ==> Same(identity, old(identity))
      ensures !accepted ==> State() == old(State()) && snapshot' == snapshot
      ensures snapshot.Some? ==> snapshot'.Some? && snapshot'.value.(proof := snapshot.value.proof) == snapshot.value
    {
      if Fingerprint(snapshot) != "" && Fingerprint(snapshot) == fingerprint { return true, snapshot; }
      accepted, snapshot' := ValidateLocked(snapshot, answer);
    }

    method ValidateLocked(snapshot: Option<Snapshot>, answer: Option<Identity>)
      returns (accepted: bool, snapshot': Option<Snapshot>)
      modifies this
      ensures Validated(State(), snapshot', accepted) == LockedValidation(old(State()), snapshot, answer)
      ensures old(identity).hash != "" ==> Same(identity, old(identity))
      ensures accepted && profile.expectedHash != "" ==> identity.hash == profile.expectedHash
      ensures accepted && old(identity).hash == "" ==>
                || (ValidProof(profile, snapshot, domain).Some?
                    && identity == ValidProof(profile, snapshot, domain).value.identity)
                || Some(identity) == answer
      ensures !accepted ==> State() == old(State()) && snapshot' == snapshot
      ensures snapshot.Some? ==> snapshot'.Some? && snapshot'.value.(proof := snapshot.value.proof) == snapshot.value
    {
      snapshot' := snapshot;
      var proof := ValidProof(profile, snapshot, domain);
      if proof.Some? {
        if profile.expectedHash != "" && proof.value.identity.hash != profile.expectedHash { return false, snapshot; }
        if identity.hash != "" && !Same(proof.value.identity, identity) { return false, snapshot; }
        identity, fingerprint := proof.value.identity, proof.value.fingerprint;
        return true, snapshot;
      }
      if answer == None { return false, snapshot; }
      if profile.expectedHash != ""
         && (answer.value.hash != profile.expectedHash || answer.value.kind != profile.expectedType) {
        return false, snapshot;
      }
      if identity.hash != "" && !Same(answer.value, identity) { return false, snapshot; }
      identity, fingerprint := answer.value, Fingerprint(snapshot);
      if snapshot.Some? {
        var proved := Proof(identity, profile.expectedAccountId, domain, fingerprint);
        snapshot' := Some(snapshot.value.(proof := Some(proved)));
      }
      accepted := true;
    }
  }

  /** Once the guard has an identity it keeps it, whatever it is shown. */
  lemma GuardKeepsIdentity(g: Guard, s: Option<Snapshot>, answer: Option<Identity>)
    requires g.identity.hash != ""
    ensures Same(Validation(g, s, answer).guard.identity, g.identity)
  {}

  /** The proof was made for these very credentials, here, and is of the account and type that are expected. */
  predicate Proves(g: Guard, s: Snapshot, p: Proof) {
    && s.accessKeyId != "" && p.fingerprint == s.accessKeyId + "\0" + s.securityToken
    && p.endpoint == g.domain && p.identity.hash != "" && p.identity.kind != ""
    && (g.profile.expectedAccountId == "" || p.accountId == g.profile.expectedAccountId)
    && (g.profile.expectedType == "" || p.identity.kind == g.profile.expectedType)
  }

  /**
   * What is accepted, in full: credentials that were accepted last, or that carry
   * a proof of the one identity that is expected and set, or that the service
   * names so when there is no such proof.
   */
  lemma AcceptedExactly(g: Guard, s: Option<Snapshot>, answer: Option<Identity>)
    ensures
      var keys := s.Some? && s.value.accessKeyId != "";
      var last := keys && g.fingerprint == s.value.accessKeyId + "\0" + s.value.securityToken;
      var proved := s.Some? && s.value.proof.Some? && Proves(g, s.value, s.value.proof.value);
      var v := Validation(g, s, answer);
      v.accepted <==>
        || last
        || (proved
            && (g.profile.expectedHash != "" ==> s.value.proof.value.identity.hash == g.profile.expectedHash)
            && (g.identity.hash != "" ==>
                  && s.value.proof.value.identity.hash == g.identity.hash
                  && s.value.proof.value.identity.kind == g.identity.kind))
        || (!proved && answer.Some?
            && (g.profile.expectedHash != "" ==>
                  answer.value.hash == g.profile.expectedHash && answer.value.kind == g.profile.expectedType)
            && (g.identity.hash != "" ==>
                  answer.value.hash == g.identity.hash && answer.value.kind == g.identity.kind))
  {
    if s.Some? && s.value.accessKeyId != "" {
      assert (s.value.accessKeyId + "\0" + s.value.securityToken)[0] == s.value.accessKeyId[0];
    }
  }

  /** Credentials that were accepted are accepted again without asking, and with the proof that they came back with. */
  lemma AcceptedAgain(g: Guard, s: Option<Snapshot>, answer: Option<Identity>)
    requires s.Some? && s.value.accessKeyId != "" && Validation(g, s, answer).accepted
    ensures
      var v := Validation(g, s, answer);
      Validation(v.guard, s, None) == Validated(v.guard, s, true) && Validation(v.guard, v.snapshot, None).accepted
  {}

  /** `who` says whose credential has a fingerprint. */
  type Owners = string -> Identity

  predicate Truthful(who: Owners, s: Option<Snapshot>) {
    s.Some? && s.value.proof.Some? && s.value.proof.value.fingerprint != "" ==>
      Same(s.value.proof.value.identity, who(s.value.proof.value.fingerprint))
  }

  predicate TruthfulAnswer(who: Owners, s: Option<Snapshot>, answer: Option<Identity>) {
    answer.Some? && Fingerprint(s) != "" ==> Same(answer.value, who(Fingerprint(s)))
  }

  predicate SoundGuard(who: Owners, g: Guard) {
    g.identity.hash != "" && (g.fingerprint != "" ==> Same(g.identity, who(g.fingerprint)))
  }

  predicate Belongs(who: Owners, s: Snapshot, identity: Identity) {
    Fingerprint(Some(s)) != "" ==> Same(who(Fingerprint(Some(s))), identity)
  }

  /** What the guard accepts belongs to its identity, and its proof says so truly. */
  lemma AcceptedBelongs(who: Owners, g: Guard, s: Option<Snapshot>, answer: Option<Identity>)
    requires SoundGuard(who, g) && Truthful(who, s) && TruthfulAnswer(who, s, answer)
    ensures
      var v := Validation(g, s, answer);
      && SoundGuard(who, v.guard) && Same(v.guard.identity, g.identity)
      && Truthful(who, v.snapshot) && Fingerprint(v.snapshot) == Fingerprint(s)
      && (v.accepted && v.snapshot.Some? ==> Belongs(who, v.snapshot.value, v.guard.identity))
  {}

  /** The guard does not turn its own identity away, when the identity service can be asked. */
  lemma OwnIdentityIsAccepted(who: Owners, g: Guard, s: Option<Snapshot>, answer: Option<Identity>)
    requires SoundGuard(who, g) && Truthful(who, s) && TruthfulAnswer(who, s, answer)
    requires Fingerprint(s) != "" && Same(who(Fingerprint(s)), g.identity) && answer.Some?
    requires g.profile.expectedHash != "" ==>
               g.identity.hash == g.profile.expectedHash && g.identity.kind == g.profile.expectedType
    ensures Validation(g, s, answer).accepted
  {}

  /** A new guard has an identity, the true one, as the identity service never names an empty one. */
  lemma NewGuardIsSound(who: Owners, profile: Profile, domain: string, s: Option<Snapshot>, answer: Option<Identity>)
    requires Truthful(who, s) && TruthfulAnswer(who, s, answer) && (answer.Some? ==> answer.value.hash != "")
    ensures
      var v := LockedValidation(NewGuard(profile, domain), s, answer);
      v.accepted ==> SoundGuard(who, v.guard)
  {}

  // ------------------------------------------------------------------
  // The state under the broker's mutex, and its critical sections.

  /** `refresh` is the channel of the refresh in flight; `failed` is a refreshErr that is not nil. */
  datatype Locked = Locked(current: Option<Snapshot>, refresh: Option<nat>, failed: bool, enabled: bool)

  function StartRefresh(b: Locked, channel: nat): Locked {
    if !b.enabled || b.refresh.Some? then b else b.(refresh := Some(channel))
  }

  datatype Entered = Served(copy: Snapshot) | Wait(channel: nat) | Unavailable

  /** The first section of snapshot: `read` is the time read before the lock, `now` that inside. */
  function Enter(b: Locked, read: int, now: int, channel: nat): (Locked, Entered) {
    if b.current.Some? && !Expired(b.current.value, read) then
      var s := b.current.value;
      var near := s.expiresAt == None || s.expiresAt.value - now <= REFRESH_WINDOW;
      (if near then StartRefresh(b, channel) else b, Served(s))
    else
      var b' := StartRefresh(b, channel);
      (b', if b'.refresh == None then Unavailable else Wait(b'.refresh.value))
  }

  /** The last section of a refresh. */
  function FinishRefresh(b: Locked, s: Option<Snapshot>, failed: bool, now: int): Locked {
    var good := !failed && s.Some? && Complete(s.value) && !Expired(s.value, now);
    b.(failed := failed, current := if good then s else b.current, refresh := None)
  }

  /** The second section of snapshot, after the wait. */
  function AfterWait(b: Locked, now: int): Option<Snapshot> {
    if b.current == None || Expired(b.current.value, now) then None else b.current
  }

  class Broker {
    var current: Option<Snapshot>
    var refresh: Option<nat>
    var refreshErr: bool
    var refreshEnabled: bool
    var channels: nat

    ghost function State(): Locked
      reads this
    {
      Locked(current, refresh, refreshErr, refreshEnabled)
    }

    /** startCredentialBrokerWithGuard: a broker with a first snapshot does not refresh yet. */
    constructor (initial: Option<Snapshot>)
      ensures State() == Locked(initial, None, false, initial == None)
    {
      current, refresh, refreshErr, refreshEnabled, channels := initial, None, false, initial == None, 0;
    }

    method Seed(snapshot: Option<Snapshot>)
      modifies this`current
      ensures current == if snapshot.Some? then snapshot else old(current)
    {
      if snapshot == None { return; }
      current := snapshot;
    }

    method Activate(snapshot: Option<Snapshot>)
      modifies this`current, this`refreshEnabled
      ensures current == (if snapshot.Some? then snapshot else old(current)) && refreshEnabled
    {
      Seed(snapshot);
      refreshEnabled := true;
    }

    /** startRefreshLocked; `started` is the channel of the goroutine it starts. */
    method StartRefreshLocked() returns (started: Option<nat>)
      modifies this`refresh, this`channels
      ensures State() == StartRefresh(old(State()), old(channels))
      ensures started == if old(refreshEnabled) && old(refresh) == None then Some(old(channels)) else None
      ensures channels == old(channels) + if started.Some? then 1 else 0
    {
      if !refreshEnabled || refresh.Some? { return None; }
      started := Some(channels);
      refresh, channels := started, channels + 1;
    }

    /** The goroutine, once Acquire and Validate have answered. */
    method FinishRefreshLocked(snapshot: Option<Snapshot>, failed: bool, now: int)
      modifies this`current, this`refresh, this`refreshErr
      ensures State() == FinishRefresh(old(State()), snapshot, failed, now)
      // No refresh is left in flight, and only complete credentials that still last replace the current ones.
      ensures refresh == None && refreshErr == failed
      ensures
        if !failed && snapshot.Some? && snapshot.value.accessKeyId != "" && snapshot.value.accessKeySecret != ""
           && (snapshot.value.expiresAt.Some? ==> now < snapshot.value.expiresAt.value)
        then current == snapshot else current == old(current)
    {
      refreshErr := failed;
      if !failed && snapshot.Some? && snapshot.value.accessKeyId != "" && snapshot.value.accessKeySecret != ""
         && !Expired(snapshot.value, now) {
        current := snapshot;
      }
      refresh := None;
    }

    /** snapshot, up to the wait. */
    method SnapshotBegin(read: int, now: int) returns (r: Entered)
      modifies this`refresh, this`channels
      ensures (State(), r) == Enter(old(State()), read, now, old(channels))
      // A copy is the current snapshot, unexpired at the time read before the lock;
      // a wait is for the refresh in flight; nothing is unavailable that could be refreshed.
      ensures r.Served? <==> current.Some? && (current.value.expiresAt.Some? ==> read < current.value.expiresAt.value)
      ensures r.Served? ==> Some(r.copy) == current
      ensures r.Wait? ==> refresh == Some(r.channel)
      ensures r.Unavailable? ==> refresh == None && !refreshEnabled
      // A refresh starts exactly if there may and must be one: at the latest three minutes before the end.
      ensures refresh != old(refresh) <==>
                && refreshEnabled && old(refresh) == None
                && (r.Served? ==> r.copy.expiresAt == None || r.copy.expiresAt.value - now <= 180)
    {
      if current.Some? && !Expired(current.value, read) {
        if current.value.expiresAt == None || current.value.expiresAt.value - now <= REFRESH_WINDOW {
          var _ := StartRefreshLocked();
        }
        return Served(current.value);
      }
      var _ := StartRefreshLocked();
      r := if refresh == None then Unavailable else Wait(refresh.value);
    }

    /** snapshot, after the wait. */
    method SnapshotEnd(now: int) returns (r: Option<Snapshot>)
      ensures r == AfterWait(State(), now)
      // The current snapshot, and only while it has not expired at the time of this section.
      ensures r.Some? <==> current.Some? && (current.value.expiresAt.Some? ==> now < current.value.expiresAt.value)
      ensures r.Some? ==> r == current
    {
      if current == None || Expired(current.value, now) { return None; }
      return current;
    }
  }

  // ------------------------------------------------------------------
  // All interleavings: the clock, the owner of the broker, the refreshes and
  // the requests take their steps in any order.

  datatype Job = Acquiring | Acquired(snapshot: Option<Snapshot>, failed: bool) | Finished

  datatype Request = Asked(read: int) | Waiting(channel: nat) | Answered(copy: Snapshot) | Refused

  datatype World = World(
    broker: Locked, guard: Option<Guard>, clock: int, channels: nat,
    jobs: map<nat, Job>, closed: set<nat>, requests: map<nat, Request>,
    seeded: set<Snapshot>, accepted: set<Snapshot>, served: seq<(Snapshot, int)>)

  datatype Event =
    | Tick(now: int)
    | SeedWith(snapshot: Snapshot)
    | Enable
    | Ask(request: nat)
    | EnterFor(request: nat)
    | Acquire(job: nat, result: Option<Snapshot>, failed: bool, answer: Option<Identity>)
    | Finish(job: nat)
    | Close(job: nat)
    | Wake(request: nat)
    | GiveUp(request: nat)
    | Reply(request: nat)

  predicate Enabled(w: World, e: Event) {
    match e
    case Tick(now) => now >= w.clock
    case SeedWith(_) => true
    case Enable => true
    case Ask(r) => r !in w.requests
    case EnterFor(r) => r in w.requests && w.requests[r].Asked?
    case Acquire(j, result, failed, answer) => j in w.jobs && w.jobs[j].Acquiring?
    case Finish(j) => j in w.jobs && w.jobs[j].Acquired?
    case Close(j) => j in w.jobs && w.jobs[j].Finished?
    case Wake(r) => r in w.requests && w.requests[r].Waiting? && w.requests[r].channel in w.closed
    case GiveUp(r) => r in w.requests && w.requests[r].Waiting?
    case Reply(r) => r in w.requests && (w.requests[r].Answered? || w.requests[r].Refused?)
  }

  function Effect(w: World, e: Event): World
    requires Enabled(w, e)
  {
    match e
    case Tick(now) => w.(clock := now)
    case SeedWith(s) => w.(broker := w.broker.(current := Some(s)), seeded := w.seeded + {s})
    case Enable => w.(broker := w.broker.(enabled := true))
    case Ask(r) => w.(requests := w.requests[r := Asked(w.clock)])
    case EnterFor(r) =>
      var (b, entered) := Enter(w.broker, w.requests[r].read, w.clock, w.channels);
      var request := match entered
        case Served(copy) => Answered(copy)
        case Wait(channel) => Waiting(channel)
        case Unavailable => Refused;
      var started := b.refresh != w.broker.refresh;
      w.(broker := b, requests := w.requests[r := request],
         jobs := if started then w.jobs[w.channels := Acquiring] else w.jobs,
         channels := if started then w.channels + 1 else w.channels)
    case Acquire(j, result, failed, answer) =>
      if failed || w.guard == None then
        w.(jobs := w.jobs[j := Acquired(result, failed)],
           accepted := if !failed && result.Some? then w.accepted + {result.value} else w.accepted)
      else
        var v := Validation(w.guard.value, result, answer);
        w.(guard := Some(v.guard), jobs := w.jobs[j := Acquired(v.snapshot, !v.accepted)],
           accepted := if v.accepted && v.snapshot.Some? then w.accepted + {v.snapshot.value} else w.accepted)
    case Finish(j) =>
      var b := FinishRefresh(w.broker, w.jobs[j].snapshot, w.jobs[j].failed, w.clock);
      w.(broker := b, jobs := w.jobs[j := Finished])
    case Close(j) => w.(jobs := w.jobs - {j}, closed := w.closed + {j})
    case Wake(r) =>
      var after := AfterWait(w.broker, w.clock);
      w.(requests := w.requests[r := if after.Some? then Answered(after.value) else Refused])
    case GiveUp(r) => w.(requests := w.requests[r := Refused])
    case Reply(r) =>
      // The handler looks at the snapshot once more before it answers with it.
      var request := w.requests[r];
      var good := request.Answered? && Complete(request.copy) && !Expired(request.copy, w.clock);
      w.(requests := w.requests - {r}, served := if good then w.served + [(request.copy, w.clock)] else w.served)
  }

  /** What comes from outside tells the truth: proofs on acquired snapshots and the identity service. */
  ghost predicate Honest(who: Owners, e: Event) {
    e.Acquire? ==> Truthful(who, e.result) && TruthfulAnswer(who, e.result, e.answer)
  }

  ghost predicate Run(who: Owners, w: World, events: seq<Event>)
    decreases |events|
  {
    events == [] ||
    (Honest(who, events[0]) && Enabled(w, events[0]) && Run(who, Effect(w, events[0]), events[1..]))
  }

  function Outcome(w: World, events: seq<Event>): World
    decreases |events|
  {
    if events == [] || !Enabled(w, events[0]) then w else Outcome(Effect(w, events[0]), events[1..])
  }

  predicate Known(w: World, s: Snapshot) {
    s in w.seeded || s in w.accepted
  }

  // At most one refresh is in flight, and it is the one the broker knows of.

  ghost predicate OneRefresh(w: World) {
    && (w.broker.refresh.Some? ==> w.broker.refresh.value in w.jobs && !w.jobs[w.broker.refresh.value].Finished?)
    && (forall j :: j in w.jobs ==> j < w.channels && (w.jobs[j].Finished? || w.broker.refresh == Some(j)))
    && (forall r :: r in w.requests && w.requests[r].Waiting? ==>
          w.requests[r].channel in w.closed || w.requests[r].channel in w.jobs)
  }

  ghost predicate OnlyKnown(w: World) {
    && (w.broker.current.Some? ==> Known(w, w.broker.current.value))
    && (forall j :: j in w.jobs && w.jobs[j].Acquired? && !w.jobs[j].failed && w.jobs[j].snapshot.Some? ==>
          w.jobs[j].snapshot.value in w.accepted)
    && (forall r :: r in w.requests && w.requests[r].Answered? ==> Known(w, w.requests[r].copy))
  }

  ghost predicate ServedWell(w: World) {
    forall i :: 0 <= i < |w.served| ==>
      && Known(w, w.served[i].0) && Complete(w.served[i].0)
      && !Expired(w.served[i].0, w.served[i].1) && w.served[i].1 <= w.clock
  }

  ghost predicate Guarded(who: Owners, w: World) {
    w.guard.Some? ==>
      && SoundGuard(who, w.guard.value)
      && forall s :: s in w.accepted ==> Belongs(who, s, w.guard.value.identity)
  }

  /** The time that a request has read is not in the future. */
  ghost predicate ReadBefore(w: World) {
    forall r :: r in w.requests && w.requests[r].Asked? ==> w.requests[r].read <= w.clock
  }

  ghost predicate Inv(who: Owners, w: World) {
    OneRefresh(w) && OnlyKnown(w) && ServedWell(w) && Guarded(who, w) && ReadBefore(w)
  }

  /** A broker as startCredentialBrokerWithGuard makes it, before any request. */
  function Start(initial: Option<Snapshot>, guard: Option<Guard>): World {
    World(Locked(initial, None, false, initial == None), guard, 0, 0, map[], {}, map[],
          if initial.Some? then {initial.value} else {}, {}, [])
  }

  lemma StartIsSafe(who: Owners, initial: Option<Snapshot>, guard: Option<Guard>)
    requires guard.Some? ==> SoundGuard(who, guard.value)
    ensures Inv(who, Start(initial, guard))
  {}

  lemma StepKeepsOneRefresh(w: World, e: Event)
    requires OneRefresh(w) && Enabled(w, e)
    ensures OneRefresh(Effect(w, e))
  {
    hide Validation, Expired;
  }

  lemma StepKeepsOnlyKnown(w: World, e: Event)
    requires OneRefresh(w) && OnlyKnown(w) && Enabled(w, e)
    ensures OnlyKnown(Effect(w, e))
  {
    hide Validation, Expired;
  }

  lemma StepKeepsServed(w: World, e: Event)
    requires OnlyKnown(w) && ServedWell(w) && Enabled(w, e)
    ensures ServedWell(Effect(w, e))
  {
    hide Validation, Expired;
  }

  lemma StepKeepsReadBefore(w: World, e: Event)
    requires ReadBefore(w) && Enabled(w, e)
    ensures ReadBefore(Effect(w, e))
  {
    hide Validation, Expired;
  }

  lemma StepKeepsGuarded(who: Owners, w: World, e: Event)
    requires Guarded(who, w) && Enabled(w, e) && Honest(who, e)
    ensures Guarded(who, Effect(w, e))
    ensures w.guard.Some? ==>
              && Effect(w, e).guard.Some?
              && Same(Effect(w, e).guard.value.identity, w.guard.value.identity)
  {
    hide Validation, Fingerprint, Truthful, TruthfulAnswer;
    if e.Acquire? && w.guard.Some? {
      AcceptedBelongs(who, w.guard.value, e.result, e.answer);
    }
  }

  /** In every run, in every order of the steps, everything below holds at every moment. */
  lemma {:induction false} BrokerIsSafe(who: Owners, w: World, events: seq<Event>)
    requires Inv(who, w) && Run(who, w, events)
    ensures Inv(who, Outcome(w, events))
    ensures w.guard.Some? ==>
              && Outcome(w, events).guard.Some?
              && Same(Outcome(w, events).guard.value.identity, w.guard.value.identity)
    decreases |events|
  {
    hide Effect, OneRefresh, OnlyKnown, ServedWell, Guarded, ReadBefore;
    if events != [] {
      var e := events[0];
      StepKeepsOneRefresh(w, e);
      StepKeepsOnlyKnown(w, e);
      StepKeepsServed(w, e);
      StepKeepsGuarded(who, w, e);
      StepKeepsReadBefore(w, e);
      BrokerIsSafe(who, Effect(w, e), events[1..]);
    }
  }

  /** So it is for every broker from its start, with a guard that knows the true identity or with none. */
  lemma BrokerIsSafeFromStart(who: Owners, initial: Option<Snapshot>, guard: Option<Guard>, events: seq<Event>)
    requires (guard.Some? ==> SoundGuard(who, guard.value)) && Run(who, Start(initial, guard), events)
    ensures
      var end := Outcome(Start(initial, guard), events);
      && Inv(who, end)
      && (guard.Some? ==> end.guard.Some? && Same(end.guard.value.identity, guard.value.identity))
  {
    hide Inv, Run, Outcome;
    StartIsSafe(who, initial, guard);
    BrokerIsSafe(who, Start(initial, guard), events);
  }

  /**
   * Nobody waits in vain: whatever the acquirer and the identity service answer,
   * at most three steps of the refresh that a request waits for will wake it.
   */
  lemma WaitersAreWoken(
    who: Owners, w: World, r: nat, result: Option<Snapshot>, failed: bool, answer: Option<Identity>)
    returns (events: seq<Event>)
    requires OneRefresh(w) && r in w.requests && w.requests[r].Waiting?
    requires Truthful(who, result) && TruthfulAnswer(who, result, answer)
    ensures
      var j := w.requests[r].channel;
      var all := [Acquire(j, result, failed, answer), Finish(j), Close(j)];
      && (events == all || events == all[1..] || events == all[2..] || events == [])
      && Run(who, w, events) && Enabled(Outcome(w, events), Wake(r))
  {
    hide Validation, Fingerprint, Truthful, TruthfulAnswer;
    var j := w.requests[r].channel;
    var acquire := Acquire(j, result, failed, answer);
    var all := [acquire, Finish(j), Close(j)];
    assert all[1..] == [Finish(j), Close(j)] && all[2..] == [Close(j)];
    if j in w.closed {
      events := [];
    } else if w.jobs[j].Finished? {
      events := [Close(j)];
      OneStep(who, w, Close(j), []);
    } else if w.jobs[j].Acquired? {
      events := [Finish(j), Close(j)];
      OneStep(who, w, Finish(j), [Close(j)]);
      OneStep(who, Effect(w, Finish(j)), Close(j), []);
    } else {
      events := all;
      OneStep(who, w, acquire, [Finish(j), Close(j)]);
      OneStep(who, Effect(w, acquire), Finish(j), [Close(j)]);
      OneStep(who, Effect(Effect(w, acquire), Finish(j)), Close(j), []);
    }
  }

  lemma OneStep(who: Owners, w: World, e: Event, rest: seq<Event>)
    requires Enabled(w, e) && Honest(who, e)
    ensures Run(who, w, [e] + rest) <==> Run(who, Effect(w, e), rest)
    ensures Outcome(w, [e] + rest) == Outcome(Effect(w, e), rest)
  {
    hide Effect, Enabled, Honest;
    assert ([e] + rest)[1..] == rest;
  }

  /** Two refreshes are never in flight at once. */
  lemma OneAcquisition(who: Owners, w: World, events: seq<Event>, a: nat, b: nat)
    requires Inv(who, w) && Run(who, w, events)
    requires
      var jobs := Outcome(w, events).jobs;
      a in jobs && b in jobs && !jobs[a].Finished? && !jobs[b].Finished?
    ensures a == b
  {
    BrokerIsSafe(who, w, events);
  }

  /** What is served by a guarded broker was seeded or belongs to the identity that the guard had from the start. */
  lemma ServedBelongs(who: Owners, w: World, events: seq<Event>, i: nat)
    requires Inv(who, w) && Run(who, w, events) && w.guard.Some? && i < |Outcome(w, events).served|
    ensures
      var (s, time) := Outcome(w, events).served[i];
      && s.accessKeyId != "" && s.accessKeySecret != ""
      && (s.expiresAt.Some? ==> time < s.expiresAt.value)
      && (s in Outcome(w, events).seeded || Belongs(who, s, w.guard.value.identity))
  {
    hide Fingerprint;
    BrokerIsSafe(who, w, events);
  }

  /** The handler answers with a copy exactly if it has keys and has not expired by then. */
  lemma HandlerServes(w: World, r: nat)
    requires Enabled(w, Reply(r))
    ensures
      var request, after := w.requests[r], Effect(w, Reply(r));
      var serves := request.Answered?
                    && request.copy.accessKeyId != "" && request.copy.accessKeySecret != ""
                    && (request.copy.expiresAt.Some? ==> w.clock < request.copy.expiresAt.value);
      && after.requests == w.requests - {r}
      && after.served == if serves then w.served + [(request.copy, w.clock)] else w.served
  {}

  /** Only a seed, or a refresh that ended well with credentials not yet expired, changes what is current. */
  lemma CurrentChangesOnlyForTheBetter(w: World, e: Event)
    requires Enabled(w, e)
    ensures Effect(w, e).broker.current != w.broker.current ==>
              || (e.SeedWith? && Effect(w, e).broker.current == Some(e.snapshot))
              || (e.Finish? && !w.jobs[e.job].failed && w.jobs[e.job].snapshot.Some?
                  && Effect(w, e).broker.current == w.jobs[e.job].snapshot
                  && Complete(w.jobs[e.job].snapshot.value) && !Expired(w.jobs[e.job].snapshot.value, w.clock))
    ensures e.Finish? && (w.jobs[e.job].failed || w.jobs[e.job].snapshot == None
                          || Expired(w.jobs[e.job].snapshot.value, w.clock)) ==>
              Effect(w, e).broker.current == w.broker.current
  {}

  /**
   * The first section serves a copy that has expired by then if and only if the
   * expiry lies between the time read before the lock and the time inside.
   */
  lemma ServesStaleIff(b: Locked, read: int, now: int, channel: nat)
    requires read <= now
    ensures
      var (_, entered) := Enter(b, read, now, channel);
      entered.Served? && Expired(entered.copy, now)
      <==> b.current.Some? && b.current.value.expiresAt.Some? && read < b.current.value.expiresAt.value <= now
  {
  }

  /**
   * Over runs: a copy that is handed out, before or after a wait, has expired if
   * and only if it was handed out before any wait and its expiry lies between
   * the time that its request read and the clock.
   */
  lemma HandedOutStaleIff(who: Owners, w: World, events: seq<Event>, r: nat, e: Event)
    requires Inv(who, w) && Run(who, w, events)
    requires (e == EnterFor(r) || e == Wake(r)) && Enabled(Outcome(w, events), e)
    ensures
      var end := Outcome(w, events);
      var answer := Effect(end, e).requests[r];
      answer.Answered? ==>
        (Expired(answer.copy, end.clock) <==>
           && e.EnterFor? && answer.copy.expiresAt.Some?
           && end.requests[r].read < answer.copy.expiresAt.value <= end.clock)
  {
    BrokerIsSafe(who, w, events);
    var end := Outcome(w, events);
    if e.EnterFor? {
      ServesStaleIff(end.broker, end.requests[r].read, end.clock, end.channels);
    }
  }

  /** Such a run exists, and the handler's second look keeps the copy back. */
  lemma SnapshotCanBeStale(s: Snapshot)
    requires s.expiresAt == Some(10) && Complete(s)
    ensures
      var w := World(Locked(Some(s), None, false, false), None, 0, 0, map[], {}, map[], {s}, {}, []);
      var stale := Outcome(w, [Ask(1), Tick(20), EnterFor(1)]);
      && stale.requests == map[1 := Answered(s)] && Expired(s, stale.clock)
      && Outcome(stale, [Reply(1)]).served == []
  {}
}
