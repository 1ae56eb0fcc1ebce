/**
 * pkg/config/config.go beside pkg/aliyun/oauth_configure.go: the store's replay of
 * one login (module ConfigStore) is the compare-and-set save that the login
 * protocol takes as one step (module OAuthProtocol).
 */
module OAuthConfig {
  import opened Common
  import C = ConfigStore
  import P = OAuthProtocol
  import Strings

  /** The digest of the authentication, which tells everything that it covers apart. */
  type Digests = C.Auth -> P.Digest

  ghost predicate Injective(digest: Digests) {
    forall a, b :: digest(a) == digest(b) ==> a == b
  }

  /** What a load makes of the file. */
  function Loaded(state: C.FileState): C.Data
    requires !state.Garbage?
  {
    C.EnsureShape(if state.Holds? then state.data else C.Data(None, None, None, map[]))
  }

  /** The configuration as the protocol sees it; `source` and `rest` are not looked at. */
  function View(digest: Digests, state: C.FileState, profile: string, source: P.Generation, rest: nat): Option<P.Doc>
    requires !state.Garbage?
  {
    if state.Absent? then None
    else
      var data := Loaded(state);
      Some(P.Doc(C.Has(data, profile), digest(C.AuthOf(C.ProfileOrNew(data, profile))), source, rest))
  }

  /** The login was prepared against what the file held then. */
  predicate PreparedAgainst(m: C.OAuth, seen: C.FileState, profile: string)
    requires !seen.Garbage?
  {
    && m.expectedConfigExisted == seen.Holds?
    && m.expectedExists == C.Has(Loaded(seen), profile)
    && m.expectedAuth == C.AuthOf(C.ProfileOrNew(Loaded(seen), profile))
  }

  /**
   * One login saved over a file: if the file still is in the state before the
   * login, the protocol's `WriteConfig` is what happens to it; if not, the save is
   * refused as a changed profile.
   */
  lemma SaveIsCompareAndSet(
    digest: Digests, seen: C.FileState, state: C.FileState, readOnly: bool, memory: C.Data, existed: bool,
    name: string, m: C.OAuth, r: P.Record, source: P.Generation, rest: nat)
    requires Injective(digest) && !seen.Garbage? && C.ValidOAuth(name, m)
    requires state.Absent? || (state.Holds? && C.StrictlyValid(state.data))
    requires PreparedAgainst(m, seen, Strings.TrimSpace(name))
    requires r.before == P.StateOf(View(digest, seen, Strings.TrimSpace(name), source, rest))
    requires
      var auth := digest(C.Auth(Strings.TrimSpace(name), C.LoginFields(m)));
      r.newLogin == auth.login && r.newAuth == auth
    ensures
      var profile := Strings.TrimSpace(name);
      var outcome := C.Outcome(state, readOnly, memory, existed, [C.SetOAuth(name, m)]);
      if !P.IsOld(r, View(digest, state, profile, source, rest)) then
        outcome == C.Refused(C.CredentialProfileChanged)
      else if state.Holds? && readOnly then
        outcome == C.Refused(C.ReadOnly)
      else
        outcome.Done? && P.IsNew(r, View(digest, C.Holds(outcome.value), profile, source, rest))
  {
    hide C.ValidOAuth, C.LoggedIn, C.LoginFields, C.PutProfile, C.AuthOf, C.Has, C.ProfileOrNew, C.Outcome;
    hide C.StrictlyValid, C.Expected, C.EnsureShape;
    var profile := Strings.TrimSpace(name);
    OutcomeOfOne(state, readOnly, memory, existed, name, m);
    ExpectedIsOld(digest, seen, state, profile, m);
    if C.Expected(Loaded(state), state.Holds?, profile, m) {
      C.LoginReplacesOnlyAuth(Loaded(state), state.Holds?, name, m, "mode");
      var saved := C.ApplySetOAuth(Loaded(state), state.Holds?, name, m).value;
      assert C.Apply(Loaded(state), state.Holds?, C.SetOAuth(name, m)) == C.Done(saved);
      assert Loaded(C.Holds(saved)) == saved;
    }
  }

  lemma OutcomeOfOne(state: C.FileState, readOnly: bool, memory: C.Data, existed: bool, name: string, m: C.OAuth)
    requires state.Absent? || (state.Holds? && C.StrictlyValid(state.data))
    ensures
      var applied := C.ApplySetOAuth(Loaded(state), state.Holds?, name, m);
      C.Outcome(state, readOnly, memory, existed, [C.SetOAuth(name, m)]) ==
      if applied.Done? && state.Holds? && readOnly then C.Refused(C.ReadOnly) else applied
  {
    hide C.ApplySetOAuth, C.StrictlyValid, C.EnsureShape;
    var pending := [C.SetOAuth(name, m)];
    var data := Loaded(state);
    assert pending[0].SetOAuth? && pending[1..] == [] && C.HasOAuth(pending);
    var applied := C.Apply(data, state.Holds?, pending[0]);
    assert applied == C.ApplySetOAuth(data, state.Holds?, name, m);
    assert C.Replay(data, state.Holds?, pending) ==
           if applied.Refused? then applied else C.Replay(applied.value, state.Holds?, []);
  }

  lemma ExpectedIsOld(digest: Digests, seen: C.FileState, state: C.FileState, profile: string, m: C.OAuth)
    requires Injective(digest) && !seen.Garbage? && !state.Garbage? && PreparedAgainst(m, seen, profile)
    ensures
      forall source, rest ::
        C.Expected(Loaded(state), state.Holds?, profile, m) <==>
        P.StateOf(View(digest, state, profile, source, rest)) == P.StateOf(View(digest, seen, profile, source, rest))
  {
    hide C.AuthOf, C.Has, C.ProfileOrNew, C.EnsureShape;
  }
}
