/**
 * pkg/config/config.go: the configuration store.  Changes are made in memory
 * and recorded; a save replays the record over what is on disk by then.
 */
module ConfigStore {
  import opened Common
  import opened Strings
  import FilePrimitives

  // ------------------------------------------------------------------
  // The configuration.

  datatype Value = Text(text: string) | Flag(on: bool) | Other(id: int)

  type Fields = map<string, Value>

  /** An element of the profile list; the list may hold what is no object. */
  datatype Entry = Profile(fields: Fields) | NotAProfile(id: int)

  datatype Telemetry = Telemetry(fields: Fields) | NotAnObject(id: int)

  /** None stands for a key that is missing or of another type. */
  datatype Data = Data(
    current: Option<string>, profiles: Option<seq<Entry>>, telemetry: Option<Telemetry>, rest: Fields)

  const DEFAULT_PROFILE_NAME := "default"

  /** stringField */
  function StringField(fields: Fields, key: string): string {
    if key in fields && fields[key].Text? then fields[key].text else ""
  }

  function NewProfile(name: string): Fields {
    map["name" := Text(name), "output_format" := Text("json")]
  }

  predicate Shaped(data: Data) {
    data.current.Some? && data.profiles.Some?
  }

  /** ensureShape */
  function EnsureShape(data: Data): (r: Data)
    ensures Shaped(r) && (Shaped(data) ==> r == data)
  {
    var current := if data.current.Some? then data.current else Some(DEFAULT_PROFILE_NAME);
    var profiles := if data.profiles.Some? then data.profiles else Some([Profile(NewProfile(DEFAULT_PROFILE_NAME))]);
    data.(current := current, profiles := profiles)
  }

  /** Current */
  function Current(data: Data): (name: string)
    ensures name != ""
  {
    if data.current.Some? && data.current.value != "" then data.current.value else DEFAULT_PROFILE_NAME
  }

  predicate Named(entry: Entry, name: string) {
    entry.Profile? && StringField(entry.fields, "name") == name
  }

  /** profileMapExisting: the first profile of that name, or the length of the list. */
  function Find(profiles: seq<Entry>, name: string): (k: nat)
    ensures k <= |profiles| && (k < |profiles| ==> Named(profiles[k], name))
    ensures forall i :: 0 <= i < k ==> !Named(profiles[i], name)
  {
    if profiles == [] || Named(profiles[0], name) then 0 else 1 + Find(profiles[1..], name)
  }

  predicate Has(data: Data, name: string) {
    data.profiles.Some? && Find(data.profiles.value, name) < |data.profiles.value|
  }

  function ProfileOf(data: Data, name: string): Fields
    requires Has(data, name)
  {
    data.profiles.value[Find(data.profiles.value, name)].fields
  }

  /** The profile as it is, or as it would be made. */
  function ProfileOrNew(data: Data, name: string): Fields {
    if Has(data, name) then ProfileOf(data, name) else NewProfile(name)
  }

  /** The profile of that name gets these fields; a new one goes to the end of the list. */
  function PutProfile(data: Data, name: string, fields: Fields): Data
    requires Shaped(data)
  {
    var profiles := data.profiles.value;
    var k := Find(profiles, name);
    data.(profiles := Some(if k < |profiles| then profiles[k := Profile(fields)] else profiles + [Profile(fields)]))
  }

  // ------------------------------------------------------------------
  // The keys that can be set.

  datatype Item = Region | AccessKeyId | AccessKeySecret | SecurityToken | Lang | Output | TelemetryEnabled

  function Alias(key: string): string {
    match key
    case "region-id" => "region"
    case "region_id" => "region"
    case "access_key_id" => "access-key-id"
    case "access_key_secret" => "access-key-secret"
    case "security_token" => "security-token"
    case "sts-token" => "security-token"
    case "sts_token" => "security-token"
    case "language" => "lang"
    case "output-format" => "output"
    case "output_format" => "output"
    case "telemetry-enabled" => "telemetry.enabled"
    case _ => key
  }

  /** lookupConfigItem */
  function LookupItem(key: string): Option<Item> {
    match Alias(TrimSpace(key))
    case "region" => Some(Region)
    case "access-key-id" => Some(AccessKeyId)
    case "access-key-secret" => Some(AccessKeySecret)
    case "security-token" => Some(SecurityToken)
    case "lang" => Some(Lang)
    case "output" => Some(Output)
    case "telemetry.enabled" => Some(TelemetryEnabled)
    case _ => None
  }

  function StoredAs(item: Item): string {
    match item
    case Region => "region_id"
    case AccessKeyId => "access_key_id"
    case AccessKeySecret => "access_key_secret"
    case SecurityToken => "sts_token"
    case Lang => "language"
    case Output => "output_format"
    case TelemetryEnabled => "telemetry.enabled"
  }

  /** ValidRegion */
  predicate ValidRegion(region: string) {
    && region != "not-a-real-region" && 3 <= |region| <= 63
    && region[0] != '-' && region[|region| - 1] != '-' && '-' in region
    && (forall i :: 0 <= i < |region| ==>
          'a' <= region[i] <= 'z' || '0' <= region[i] <= '9' || region[i] == '-')
    && (forall i :: 0 < i < |region| ==> region[i - 1] != '-' || region[i] != '-')
  }

  /** validateConfigValue */
  predicate ValidValue(item: Item, value: string) {
    value != "" &&
    match item
    case Region => ValidRegion(value)
    case Lang => value == "en" || value == "zh-CN"
    case Output => value == "json" || value == "text"
    case TelemetryEnabled => value == "true" || value == "false"
    case _ => true
  }

  const AUTH_KEYS: set<string> := {
    "mode", "access_key_id", "access_key_secret", "sts_token", "sts_expiration",
    "ram_role_name", "ram_role_arn", "ram_session_name", "source_profile", "expired_seconds", "policy", "external_id",
    "sts_endpoint", "sts_region", "enable_vpc", "oidc_provider_arn", "oidc_token_file",
    "oauth_site_type", "oauth_refresh_token", "oauth_refresh_token_expire", "oauth_access_token",
    "oauth_access_token_expire", "oauth_generation", "oauth_account_id",
    "cloud_sso_sign_in_url", "cloud_sso_account_id", "cloud_sso_access_config", "access_token",
    "cloud_sso_access_token_expire",
    "process_command", "credentials_uri", "bearer_token", "bearer_token_header_key"
  }

  /** What CredentialProfileAuthDigest is the digest of. */
  datatype Auth = Auth(name: string, fields: Fields)

  function AuthOf(fields: Fields): Auth {
    Auth(StringField(fields, "name"), map k | k in fields && k in AUTH_KEYS :: fields[k])
  }

  // ------------------------------------------------------------------
  // The changes.

  datatype OAuth = OAuth(
    siteType: string, generation: string, accountId: string,
    expectedCurrent: string, expectedExists: bool, expectedConfigExisted: bool, expectedAuth: Auth)

  datatype Mutation =
    | SetValue(name: string, key: string, value: string)
    | UseProfile(name: string)
    | SetCurrent(name: string)
    | SetOAuth(name: string, oauth: OAuth)

  datatype Problem =
    | UnknownKey | InvalidValue | TelemetryIsNoObject | ProfileRequired | ProfileNotFound
    | InvalidOAuth | CredentialProfileChanged | Undecodable | ReadOnly | WriteFailed(applied: bool)

  datatype Result<T> = Done(value: T) | Refused(problem: Problem)

  function Mode(item: Item, fields: Fields): Fields {
    match item
    case AccessKeyId => fields["mode" := Text(if StringField(fields, "sts_token") != "" then "StsToken" else "AK")]
    case AccessKeySecret => fields["mode" := Text(if StringField(fields, "sts_token") != "" then "StsToken" else "AK")]
    case SecurityToken => fields["mode" := Text("StsToken")]
    case _ => fields
  }

  /** setValue */
  function ApplySetValue(data: Data, name: string, key: string, value: string): Result<Data>
    requires Shaped(data)
  {
    match LookupItem(key)
    case None => Refused(UnknownKey)
    case Some(item) =>
      if !ValidValue(item, value) then Refused(InvalidValue)
      else if item.TelemetryEnabled? then
        var on := Flag(value == "true");
        match data.telemetry
        case None => Done(data.(telemetry := Some(Telemetry(map["enabled" := on]))))
        case Some(NotAnObject(_)) => Refused(TelemetryIsNoObject)
        case Some(Telemetry(fields)) => Done(data.(telemetry := Some(Telemetry(fields["enabled" := on]))))
      else
        var profile := if name == "" then Current(data) else name;
        var fields := ProfileOrNew(data, profile)[StoredAs(item) := Text(value)];
        Done(PutProfile(data, profile, Mode(item, fields)).(current := Some(profile)))
  }

  predicate ValidName(name: string) {
    TrimSpace(name) != "" && '\r' !in TrimSpace(name) && '\n' !in TrimSpace(name) && '\0' !in TrimSpace(name)
  }

  /** strings.ToUpper, of ASCII letters */
  function ToUpper(s: string): string {
    seq(|s|, i requires 0 <= i < |s| => if 'a' <= s[i] <= 'z' then ((s[i] as int) - 32) as char else s[i])
  }

  function Site(siteType: string): string {
    ToUpper(TrimSpace(siteType))
  }

  predicate ValidAccount(accountId: string) {
    |TrimSpace(accountId)| == 16 && forall i :: 0 <= i < 16 ==> '0' <= TrimSpace(accountId)[i] <= '9'
  }

  predicate ValidOAuth(name: string, m: OAuth) {
    && ValidName(name) && (Site(m.siteType) == "CN" || Site(m.siteType) == "INTL") && TrimSpace(m.generation) != ""
    && (m.accountId != "" ==> ValidAccount(m.accountId))
  }

  /** The record that a login is made against still holds. */
  predicate Expected(data: Data, existed: bool, name: string, m: OAuth) {
    && existed == m.expectedConfigExisted && Has(data, name) == m.expectedExists
    && AuthOf(ProfileOrNew(data, name)) == m.expectedAuth
  }

  function LoggedIn(fields: Fields, m: OAuth): Fields {
    var kept := map k | k in fields && k !in AUTH_KEYS :: fields[k];
    var signed := kept["mode" := Text("OAuth")]["oauth_site_type" := Text(Site(m.siteType))]
                   ["oauth_generation" := Text(m.generation)];
    if m.accountId != "" then signed["oauth_account_id" := Text(TrimSpace(m.accountId))] else signed
  }

  /** setNativeOAuthProfile */
  function ApplySetOAuth(data: Data, existed: bool, name: string, m: OAuth): Result<Data>
    requires Shaped(data)
  {
    var profile := TrimSpace(name);
    if !ValidOAuth(name, m) then Refused(InvalidOAuth)
    else if !Expected(data, existed, profile, m) then Refused(CredentialProfileChanged)
    else
      var put := PutProfile(data, profile, LoggedIn(ProfileOrNew(data, profile), m));
      Done(if Current(data) == m.expectedCurrent then put.(current := Some(profile)) else put)
  }

  /** applyMutation */
  function Apply(data: Data, existed: bool, m: Mutation): (r: Result<Data>)
    requires Shaped(data)
    ensures r.Done? ==> Shaped(r.value)
  {
    match m
    case SetValue(name, key, value) => ApplySetValue(data, name, key, value)
    case UseProfile(name) =>
      if name == "" then Refused(ProfileRequired)
      else if !Has(data, name) then Refused(ProfileNotFound)
      else Done(data.(current := Some(name)))
    case SetCurrent(name) =>
      if name == "" then Refused(ProfileRequired)
      else Done((if Has(data, name) then data else PutProfile(data, name, NewProfile(name))).(current := Some(name)))
    case SetOAuth(name, oauth) => ApplySetOAuth(data, existed, name, oauth)
  }

  function Replay(data: Data, existed: bool, pending: seq<Mutation>): (r: Result<Data>)
    requires Shaped(data)
    ensures r.Done? ==> Shaped(r.value)
    decreases |pending|
  {
    if pending == [] then Done(data)
    else
      var r := Apply(data, existed, pending[0]);
      if r.Refused? then r else Replay(r.value, existed, pending[1..])
  }

  /** The record names the profile that was meant, and a login in its normal form. */
  function Resolved(data: Data, m: Mutation): Mutation {
    match m
    case SetValue(name, key, value) =>
      if LookupItem(key) == Some(TelemetryEnabled) then SetValue("", key, value)
      else SetValue(if name == "" then Current(data) else name, key, value)
    case SetOAuth(name, oauth) =>
      SetOAuth(TrimSpace(name), oauth.(siteType := Site(oauth.siteType), accountId := TrimSpace(oauth.accountId)))
    case _ => m
  }

  lemma TrimTwice(s: string)
    ensures TrimSpace(TrimSpace(s)) == TrimSpace(s)
  {
    if TrimSpace(s) != "" { TrimKeeps(TrimSpace(s)); }
  }

  lemma SitesAreNormal()
    ensures Site("CN") == "CN" && Site("INTL") == "INTL"
    ensures ToUpper("cn") == "CN" && ToUpper("intl") == "INTL"
  {
    TrimKeeps("CN");
    TrimKeeps("INTL");
  }

  /**
   * The record of a change does not depend on what is current by the time it is
   * saved: it names the profile that was current when the change was made.
   */
  lemma RecordNamesProfile(data: Data, m: Mutation, field: string)
    ensures
      var current := if data.current.Some? && data.current.value != "" then data.current.value else "default";
      && (m.SetValue? && SetsField(m.key, field) ==>
            Resolved(data, m) == SetValue(if m.name != "" then m.name else current, m.key, m.value))
      && (m.SetOAuth? ==>
            Resolved(data, m) ==
            SetOAuth(TrimSpace(m.name), m.oauth.(siteType := ToUpper(TrimSpace(m.oauth.siteType)),
                                                 accountId := TrimSpace(m.oauth.accountId))))
      && (m.UseProfile? || m.SetCurrent? ==> Resolved(data, m) == m)
  {
    hide TrimSpace, LookupItem, SetsField;
    if m.SetValue? { KeysAreKnown(m.key, field); }
  }

  /** Replaying a recorded change does what the change did. */
  lemma RecordedIsApplied(data: Data, existed: bool, m: Mutation)
    requires Shaped(data) && Apply(data, existed, m).Done?
    ensures Apply(data, existed, Resolved(data, m)) == Apply(data, existed, m)
  {
    hide TrimSpace, Find, LookupItem, ValidValue, LoggedIn, Expected, PutProfile, ToUpper, Mode;
    match m
    case SetOAuth(name, oauth) =>
      TrimTwice(name);
      TrimTwice(oauth.accountId);
      SitesAreNormal();
      assert ValidOAuth(name, oauth);
      var normal := oauth.(siteType := Site(oauth.siteType), accountId := TrimSpace(oauth.accountId));
      TrimNothing();
      assert ValidOAuth(TrimSpace(name), normal);
      NormalLogin(data, existed, TrimSpace(name), oauth, normal);
    case _ =>
  }

  lemma TrimNothing()
    ensures TrimSpace("") == ""
  {}

  lemma NormalLogin(data: Data, existed: bool, profile: string, m: OAuth, normal: OAuth)
    requires normal == m.(siteType := Site(m.siteType), accountId := TrimSpace(m.accountId))
    requires Site(normal.siteType) == Site(m.siteType) && TrimSpace(normal.accountId) == TrimSpace(m.accountId)
    requires normal.accountId == "" <==> m.accountId == ""
    ensures Expected(data, existed, profile, normal) == Expected(data, existed, profile, m)
    ensures forall fields :: LoggedIn(fields, normal) == LoggedIn(fields, m)
  {
    hide TrimSpace, Site, AuthOf, Find;
  }

  lemma {:induction false} ReplayMore(data: Data, existed: bool, pending: seq<Mutation>, m: Mutation)
    requires Shaped(data)
    ensures
      var r := Replay(data, existed, pending);
      Replay(data, existed, pending + [m]) == if r.Done? then Apply(r.value, existed, m) else r
    decreases |pending|
  {
    hide Apply;
    if pending == [] {
      assert ([] + [m])[1..] == [];
    } else {
      var r := Apply(data, existed, pending[0]);
      assert (pending + [m])[0] == pending[0] && (pending + [m])[1..] == pending[1..] + [m];
      if r.Done? { ReplayMore(r.value, existed, pending[1..], m); }
    }
  }

  // ------------------------------------------------------------------
  // What a change leaves as it was.

  /**
   * A place in the configuration: the current profile's name, a field of the
   * telemetry settings, a field of the profile of a name, or an element of the
   * profile list, which may be a later one of a name or no profile at all.
   */
  datatype Cell =
    | CurrentCell
    | TelemetryCell(field: string)
    | FieldCell(profile: string, field: string)
    | ElementCell(index: nat)

  datatype Reading = Field(value: Value) | Element(entry: Entry)

  function ReadCell(data: Data, cell: Cell): Option<Reading> {
    match cell
    case CurrentCell => if data.current.Some? then Some(Field(Text(data.current.value))) else None
    case TelemetryCell(field) =>
      (match data.telemetry
       case None => None
       case Some(NotAnObject(id)) => Some(Field(Other(id)))
       case Some(Telemetry(fields)) => if field in fields then Some(Field(fields[field])) else None)
    case FieldCell(profile, field) =>
      if Has(data, profile) && field in ProfileOf(data, profile) then Some(Field(ProfileOf(data, profile)[field]))
      else None
    case ElementCell(index) =>
      if data.profiles.Some? && index < |data.profiles.value| then Some(Element(data.profiles.value[index])) else None
  }

  /** The element that holds the profile of that name, or will hold it once it is made. */
  predicate HoldsProfile(data: Data, name: string, cell: Cell) {
    data.profiles.Some? && cell == ElementCell(Find(data.profiles.value, name))
  }

  /** Making a profile gives it a name and an output format. */
  predicate Makes(data: Data, profile: string, cell: Cell) {
    !Has(data, profile)
    && (|| cell == FieldCell(profile, "name") || cell == FieldCell(profile, "output_format")
        || HoldsProfile(data, profile, cell))
  }

  predicate SetsMode(item: Item) {
    item.AccessKeyId? || item.AccessKeySecret? || item.SecurityToken?
  }

  /** The cells that a change is about. */
  predicate Touches(data: Data, m: Mutation, cell: Cell) {
    match m
    case SetValue(name, key, value) =>
      var item := LookupItem(key);
      var profile := if name == "" then Current(data) else name;
      if item == Some(TelemetryEnabled) then cell == TelemetryCell("enabled")
      else
        || cell == CurrentCell || Makes(data, profile, cell) || HoldsProfile(data, profile, cell)
        || (item.Some? && cell == FieldCell(profile, StoredAs(item.value)))
        || (item.Some? && SetsMode(item.value) && cell == FieldCell(profile, "mode"))
    case UseProfile(_) => cell == CurrentCell
    case SetCurrent(name) => cell == CurrentCell || Makes(data, name, cell)
    case SetOAuth(name, oauth) =>
      || (cell == CurrentCell && Current(data) == oauth.expectedCurrent)
      || Makes(data, TrimSpace(name), cell) || HoldsProfile(data, TrimSpace(name), cell)
      || (cell.FieldCell? && cell.profile == TrimSpace(name) && cell.field in AUTH_KEYS)
  }

  lemma FindIs(profiles: seq<Entry>, name: string, k: nat)
    requires k <= |profiles| && (k < |profiles| ==> Named(profiles[k], name))
    requires forall i :: 0 <= i < k ==> !Named(profiles[i], name)
    ensures Find(profiles, name) == k
  {
    hide Find, Named;
  }

  /** Putting a profile changes that profile and no other. */
  lemma PutChangesOne(data: Data, name: string, fields: Fields, other: string)
    requires Shaped(data) && StringField(fields, "name") == name
    ensures
      var put := PutProfile(data, name, fields);
      && Has(put, name) && ProfileOf(put, name) == fields
      && (other != name ==> Has(put, other) == Has(data, other))
      && (other != name ==> ProfileOrNew(put, other) == ProfileOrNew(data, other))
  {
    hide Find, StringField, NewProfile;
    var before, after := data.profiles.value, PutProfile(data, name, fields).profiles.value;
    var k, j := Find(before, name), Find(before, other);
    FindIs(after, name, k);
    if other != name {
      if j < |before| || k < |before| {
        FindIs(after, other, j);
      } else {
        FindIs(after, other, |after|);
      }
    }
  }

  /** The fields that a change puts still have the profile's name. */
  lemma NameStays(data: Data, name: string, item: Item, value: string)
    ensures StringField(ProfileOrNew(data, name), "name") == name
    ensures StringField(Mode(item, ProfileOrNew(data, name)[StoredAs(item) := Text(value)]), "name") == name
  {
    hide Find;
  }

  lemma LoginKeepsName(data: Data, name: string, m: OAuth)
    ensures StringField(LoggedIn(ProfileOrNew(data, name), m), "name") == name
  {
    hide Find, TrimSpace, Site;
    assert "name" !in AUTH_KEYS by { PlainKeys(); }
  }

  lemma PlainKeys()
    ensures "name" !in AUTH_KEYS && "output_format" !in AUTH_KEYS
    ensures "region_id" !in AUTH_KEYS && "language" !in AUTH_KEYS
    ensures "mode" in AUTH_KEYS && "oauth_site_type" in AUTH_KEYS && "oauth_generation" in AUTH_KEYS
    ensures "oauth_account_id" in AUTH_KEYS
  {}

  /** A change keeps every cell that it is not about, and what is no cell at all. */
  lemma ApplyKeepsUntouched(data: Data, existed: bool, m: Mutation, cell: Cell)
    requires Shaped(data) && Apply(data, existed, m).Done? && !Touches(data, m, cell)
    ensures ReadCell(Apply(data, existed, m).value, cell) == ReadCell(data, cell)
    ensures Apply(data, existed, m).value.rest == data.rest
  {
    hide Find, TrimSpace, LookupItem, ValidValue, Site, Expected, ValidOAuth, PutProfile, AUTH_KEYS, ApplySetValue;
    match m
    case SetValue(name, key, value) =>
      SetValueKeepsUntouched(data, name, key, value, cell);
    case UseProfile(_) =>
      if cell.FieldCell? { HasIgnoresCurrent(data, Some(m.name), cell.profile); }
    case SetCurrent(name) =>
      if Has(data, name) {
        if cell.FieldCell? { HasIgnoresCurrent(data, Some(name), cell.profile); }
      } else {
        NameStays(data, name, Region, "");
        PutKeepsCell(data, name, NewProfile(name), cell);
      }
    case SetOAuth(name, oauth) =>
      var profile := TrimSpace(name);
      LoginKeepsName(data, profile, oauth);
      PlainKeys();
      PutKeepsCell(data, profile, LoggedIn(ProfileOrNew(data, profile), oauth), cell);
  }

  lemma SetValueKeepsUntouched(data: Data, name: string, key: string, value: string, cell: Cell)
    requires Shaped(data) && ApplySetValue(data, name, key, value).Done?
    requires !Touches(data, SetValue(name, key, value), cell)
    ensures ReadCell(ApplySetValue(data, name, key, value).value, cell) == ReadCell(data, cell)
    ensures ApplySetValue(data, name, key, value).value.rest == data.rest
  {
    hide Find, LookupItem, ValidValue, PutProfile, AUTH_KEYS;
    var item := LookupItem(key).value;
    if item != TelemetryEnabled {
      var profile := if name == "" then Current(data) else name;
      NameStays(data, profile, item, value);
      var fields := Mode(item, ProfileOrNew(data, profile)[StoredAs(item) := Text(value)]);
      PutKeepsCell(data, profile, fields, cell);
    }
  }

  lemma PutKeepsCell(data: Data, name: string, fields: Fields, cell: Cell)
    requires Shaped(data) && StringField(fields, "name") == name
    requires cell.FieldCell? && cell.profile == name ==>
               ReadCell(data, cell) == if cell.field in fields then Some(Field(fields[cell.field])) else None
    requires !HoldsProfile(data, name, cell)
    ensures ReadCell(PutProfile(data, name, fields), cell) == ReadCell(data, cell)
    ensures PutProfile(data, name, fields).rest == data.rest
    ensures PutProfile(data, name, fields).telemetry == data.telemetry
    ensures PutProfile(data, name, fields).current == data.current
    ensures forall current ::
      ReadCell(PutProfile(data, name, fields).(current := current), cell) ==
      if cell.CurrentCell? then (if current.Some? then Some(Field(Text(current.value))) else None)
      else ReadCell(data, cell)
  {
    hide Find;
    if cell.FieldCell? { PutChangesOne(data, name, fields, cell.profile); }
  }

  predicate ReplayTouches(data: Data, existed: bool, pending: seq<Mutation>, cell: Cell)
    requires Shaped(data)
    decreases |pending|
  {
    && pending != []
    && (|| Touches(data, pending[0], cell)
        || var r := Apply(data, existed, pending[0]);
           r.Done? && ReplayTouches(r.value, existed, pending[1..], cell))
  }

  /**
   * A save over what another writer has saved in the meantime keeps it, but
   * for the cells that the changes of this save are about.
   */
  lemma {:induction false} ReplayKeepsUntouched(data: Data, existed: bool, pending: seq<Mutation>, cell: Cell)
    requires Shaped(data)
    ensures Replay(data, existed, pending).Done? && !ReplayTouches(data, existed, pending, cell) ==>
              && ReadCell(Replay(data, existed, pending).value, cell) == ReadCell(data, cell)
              && Replay(data, existed, pending).value.rest == data.rest
    decreases |pending|
  {
    hide Apply, Touches, ReadCell;
    if pending != [] && Replay(data, existed, pending).Done? && !ReplayTouches(data, existed, pending, cell) {
      ApplyKeepsUntouched(data, existed, pending[0], cell);
      ReplayKeepsUntouched(Apply(data, existed, pending[0]).value, existed, pending[1..], cell);
    }
  }

  // ------------------------------------------------------------------
  // What the keys mean, told without the tables above.

  /** The key, or one of its aliases, with any space around it, sets this field of a profile. */
  predicate SetsField(key: string, field: string) {
    match field
    case "region_id" => TrimSpace(key) in {"region", "region-id", "region_id"}
    case "access_key_id" => TrimSpace(key) in {"access-key-id", "access_key_id"}
    case "access_key_secret" => TrimSpace(key) in {"access-key-secret", "access_key_secret"}
    case "sts_token" => TrimSpace(key) in {"security-token", "security_token", "sts-token", "sts_token"}
    case "language" => TrimSpace(key) in {"lang", "language"}
    case "output_format" => TrimSpace(key) in {"output", "output-format", "output_format"}
    case _ => false
  }

  predicate SetsTelemetry(key: string) {
    TrimSpace(key) in {"telemetry.enabled", "telemetry-enabled"}
  }

  predicate LowerOrDigit(c: char) {
    'a' <= c <= 'z' || '0' <= c <= '9'
  }

  predicate IsLabel(s: string) {
    s != "" && forall i :: 0 <= i < |s| ==> LowerOrDigit(s[i])
  }

  /** Two or more labels of lower-case letters and digits, joined by hyphens, with a length that can be one. */
  predicate IsRegion(s: string) {
    && |Split(s, '-')| >= 2 && (forall part :: part in Split(s, '-') ==> IsLabel(part))
    && |s| <= 63 && s != "not-a-real-region"
  }

  predicate TakesValue(field: string, value: string) {
    match field
    case "region_id" => IsRegion(value)
    case "language" => value in {"en", "zh-CN"}
    case "output_format" => value in {"json", "text"}
    case _ => value != ""
  }

  /** The text is labels joined by single hyphens. */
  predicate Hyphenated(s: string) {
    && s != "" && s[0] != '-' && s[|s| - 1] != '-'
    && (forall i :: 0 <= i < |s| ==> LowerOrDigit(s[i]) || s[i] == '-')
    && (forall i :: 0 < i < |s| ==> s[i - 1] != '-' || s[i] != '-')
  }

  lemma HyphenatedParts(before: string, after: string)
    requires '-' !in before
    ensures Hyphenated(before + ['-'] + after) <==> IsLabel(before) && Hyphenated(after)
  {
    var s := before + ['-'] + after;
    var n := |before|;
    assert s[n] == '-' && (forall i :: 0 <= i < n ==> s[i] == before[i] != '-');
    assert forall i :: 0 <= i < |after| ==> s[n + 1 + i] == after[i];
    if Hyphenated(s) {
      assert before != "" && after != "";
      assert s[n + 1] == after[0] && s[|s| - 1] == after[|after| - 1];
      forall i | 0 < i < |after| ensures after[i - 1] != '-' || after[i] != '-' {
        assert s[n + 1 + i] == after[i] && s[n + 1 + i - 1] == after[i - 1];
      }
    }
    if IsLabel(before) && Hyphenated(after) {
      forall i | 0 < i < |s| ensures s[i - 1] != '-' || s[i] != '-' {
        if i > n + 1 {
          assert s[i] == after[i - n - 1] && s[i - 1] == after[i - n - 2];
        }
      }
    }
  }

  lemma {:induction false} LabelsAreHyphenated(s: string)
    ensures (forall part :: part in Split(s, '-') ==> IsLabel(part)) <==> Hyphenated(s)
    ensures |Split(s, '-')| >= 2 <==> '-' in s
    decreases |s|
  {
    hide Hyphenated, IsLabel;
    var h := Cut(s, '-');
    if h.found {
      LabelsAreHyphenated(h.after);
      HyphenatedParts(h.before, h.after);
      SplitAt(h.before, '-', h.after);
    } else {
      SplitAt(s, '-', "");
      OneLabel(s);
    }
  }

  lemma OneLabel(s: string)
    requires '-' !in s
    ensures IsLabel(s) <==> Hyphenated(s)
  {
  }

  lemma RegionsAreHyphenated(s: string)
    ensures ValidRegion(s) <==> IsRegion(s)
  {
    hide Split, IsLabel;
    LabelsAreHyphenated(s);
    if Hyphenated(s) && '-' in s {
      var k :| 0 <= k < |s| && s[k] == '-';
      assert 0 < k < |s| - 1;
    }
  }

  lemma RegionKeys(key: string)
    ensures SetsField(key, "region_id") ==> LookupItem(key) == Some(Region)
  {
    hide TrimSpace;
  }

  lemma KeyIdKeys(key: string)
    ensures SetsField(key, "access_key_id") ==> LookupItem(key) == Some(AccessKeyId)
  {
    hide TrimSpace;
  }

  lemma KeySecretKeys(key: string)
    ensures SetsField(key, "access_key_secret") ==> LookupItem(key) == Some(AccessKeySecret)
  {
    hide TrimSpace;
  }

  lemma TokenKeys(key: string)
    ensures SetsField(key, "sts_token") ==> LookupItem(key) == Some(SecurityToken)
  {
    hide TrimSpace;
  }

  lemma LangKeys(key: string)
    ensures SetsField(key, "language") ==> LookupItem(key) == Some(Lang)
  {
    hide TrimSpace;
  }

  lemma OutputKeys(key: string)
    ensures SetsField(key, "output_format") ==> LookupItem(key) == Some(Output)
  {
    hide TrimSpace;
  }

  lemma TelemetryKeys(key: string)
    ensures SetsTelemetry(key) ==> LookupItem(key) == Some(TelemetryEnabled)
  {
    hide TrimSpace;
  }

  lemma FieldsOfItems(item: Item)
    ensures !item.TelemetryEnabled? ==>
      StoredAs(item) in {"region_id", "access_key_id", "access_key_secret", "sts_token", "language", "output_format"}
    ensures StoredAs(Region) == "region_id" && StoredAs(AccessKeyId) == "access_key_id"
    ensures StoredAs(AccessKeySecret) == "access_key_secret" && StoredAs(SecurityToken) == "sts_token"
    ensures StoredAs(Lang) == "language" && StoredAs(Output) == "output_format"
  {
  }

  /** The tables agree: a key of a field is the item stored there, and no other key is known. */
  lemma KeysAreKnown(key: string, field: string)
    ensures SetsField(key, field) ==>
              LookupItem(key).Some? && !LookupItem(key).value.TelemetryEnabled?
              && StoredAs(LookupItem(key).value) == field
    ensures SetsTelemetry(key) ==> LookupItem(key) == Some(TelemetryEnabled)
    ensures LookupItem(key).Some? ==> SetsTelemetry(key) || SetsField(key, StoredAs(LookupItem(key).value))
  {
    hide TrimSpace, LookupItem, StoredAs, SetsTelemetry;
    FieldsOfItems(Region);
    TelemetryKeys(key);
    if SetsField(key, field) {
      SomeField(key, field);
      match field
      case "region_id" => RegionKeys(key);
      case "access_key_id" => KeyIdKeys(key);
      case "access_key_secret" => KeySecretKeys(key);
      case "sts_token" => TokenKeys(key);
      case "language" => LangKeys(key);
      case "output_format" => OutputKeys(key);
      case _ =>
    }
    KnownKeys(key);
  }

  lemma SomeField(key: string, field: string)
    requires SetsField(key, field)
    ensures field in {"region_id", "access_key_id", "access_key_secret", "sts_token", "language", "output_format"}
  {
    hide TrimSpace;
  }

  lemma KnownKeys(key: string)
    ensures
      match LookupItem(key)
      case Some(TelemetryEnabled) => SetsTelemetry(key)
      case Some(item) => SetsField(key, StoredAs(item))
      case None => true
  {
    hide TrimSpace;
  }

  lemma ValuesAreKnown(item: Item, value: string)
    ensures !item.TelemetryEnabled? ==> (ValidValue(item, value) <==> TakesValue(StoredAs(item), value))
    ensures item.TelemetryEnabled? ==> (ValidValue(item, value) <==> value == "true" || value == "false")
  {
    hide Split, ValidRegion, IsRegion;
    RegionsAreHyphenated(value);
    assert IsRegion(value) ==> value != "" by { ShortestRegion(value); }
  }

  lemma ShortestRegion(value: string)
    ensures ValidRegion(value) ==> value != ""
  {
  }

  /** Setting a key puts exactly the text into the field that it means; no key, or no value of it, is refused. */
  lemma SetValueMeans(data: Data, existed: bool, name: string, key: string, value: string, field: string)
    requires Shaped(data)
    ensures
      var r := Apply(data, existed, SetValue(name, key, value));
      var profile := if name == "" then Current(data) else name;
      SetsField(key, field) ==>
        && (r.Done? <==> TakesValue(field, value))
        && (r.Done? ==>
              && r.value.current == Some(profile) && Has(r.value, profile) && field in ProfileOf(r.value, profile)
              && ProfileOf(r.value, profile)[field] == Text(value)
              // A profile that is made for it has its name, and prints JSON until told otherwise.
              && StringField(ProfileOf(r.value, profile), "name") == profile
              && (!Has(data, profile) && field != "output_format" ==>
                    StringField(ProfileOf(r.value, profile), "output_format") == "json"))
    ensures
      var r := Apply(data, existed, SetValue(name, key, value));
      SetsTelemetry(key) ==>
        && (r.Done? <==>
              (value == "true" || value == "false") && (data.telemetry.Some? ==> data.telemetry.value.Telemetry?))
        && (r.Done? ==>
              && r.value.telemetry.Some? && r.value.telemetry.value.Telemetry?
              && "enabled" in r.value.telemetry.value.fields
              && r.value.telemetry.value.fields["enabled"] == Flag(value == "true"))
    ensures
      Apply(data, existed, SetValue(name, key, value)).Done? ==>
        SetsTelemetry(key) || exists f :: SetsField(key, f)
  {
    hide Find, LookupItem, ValidValue, PutProfile, SetsField, SetsTelemetry, TakesValue, StoredAs;
    KeysAreKnown(key, field);
    if LookupItem(key).Some? {
      var item := LookupItem(key).value;
      ValuesAreKnown(item, value);
      if !item.TelemetryEnabled? && ValidValue(item, value) {
        SetValueStores(data, if name == "" then Current(data) else name, item, value);
      }
    }
  }

  lemma SetValueStores(data: Data, profile: string, item: Item, value: string)
    requires Shaped(data) && !item.TelemetryEnabled?
    ensures
      var fields := ProfileOrNew(data, profile)[StoredAs(item) := Text(value)];
      var after := PutProfile(data, profile, Mode(item, fields)).(current := Some(profile));
      && Has(after, profile) && StoredAs(item) in ProfileOf(after, profile)
      && ProfileOf(after, profile)[StoredAs(item)] == Text(value)
      && StringField(ProfileOf(after, profile), "name") == profile
      && (!Has(data, profile) && StoredAs(item) != "output_format" ==>
            StringField(ProfileOf(after, profile), "output_format") == "json")
  {
    hide Find, PutProfile;
    NameStays(data, profile, item, value);
    var fields := Mode(item, ProfileOrNew(data, profile)[StoredAs(item) := Text(value)]);
    PutChangesOne(data, profile, fields, profile);
    HasIgnoresCurrent(PutProfile(data, profile, fields), Some(profile), profile);
  }

  /** Selecting a profile needs one of that name; switching to one makes it when it is missing. */
  lemma ProfileIsSelected(data: Data, existed: bool, name: string)
    requires Shaped(data)
    ensures
      Apply(data, existed, UseProfile(name)) ==
      if name == "" then Refused(ProfileRequired)
      else if exists p :: p in data.profiles.value && p.Profile? && StringField(p.fields, "name") == name
      then Done(data.(current := Some(name)))
      else Refused(ProfileNotFound)
    ensures
      var r := Apply(data, existed, SetCurrent(name));
      && (r.Done? <==> name != "")
      && (r.Done? ==>
            && r.value.current == Some(name) && Has(r.value, name)
            && (Has(data, name) ==> r.value == data.(current := Some(name)))
            && (!Has(data, name) ==>
                  ProfileOf(r.value, name) == map["name" := Text(name), "output_format" := Text("json")]))
  {
    hide Find, PutProfile;
    if Has(data, name) {
      assert Named(data.profiles.value[Find(data.profiles.value, name)], name);
    } else {
      assert forall i :: 0 <= i < |data.profiles.value| ==> !Named(data.profiles.value[i], name);
      PutChangesOne(data, name, NewProfile(name), name);
      HasIgnoresCurrent(PutProfile(data, name, NewProfile(name)), Some(name), name);
    }
  }

  /** A file that is not there, or holds nothing, is one default profile that prints JSON, and it is current. */
  lemma EmptyFileIsDefault()
    ensures
      EnsureShape(Data(None, None, None, map[])) ==
      Data(Some("default"), Some([Profile(map["name" := Text("default"), "output_format" := Text("json")])]), None,
           map[])
  {
  }

  /** A value that was set is the one saved, unless a later change of the same save is about it. */
  lemma SetValueIsSaved(data: Data, existed: bool, pending: seq<Mutation>, i: nat, field: string)
    requires Shaped(data) && i < |pending| && pending[i].SetValue?
    ensures
      var first := Replay(data, existed, pending[..i + 1]);
      var cell := FieldCell(pending[i].name, field);
      Replay(data, existed, pending).Done? && SetsField(pending[i].key, field) && pending[i].name != "" ==>
        && first.Done?
        && (!ReplayTouches(first.value, existed, pending[i + 1..], cell) ==>
              ReadCell(Replay(data, existed, pending).value, cell) == Some(Field(Text(pending[i].value))))
    ensures
      var first := Replay(data, existed, pending[..i + 1]);
      var cell := TelemetryCell("enabled");
      Replay(data, existed, pending).Done? && SetsTelemetry(pending[i].key) ==>
        && first.Done?
        && (!ReplayTouches(first.value, existed, pending[i + 1..], cell) ==>
              ReadCell(Replay(data, existed, pending).value, cell) == Some(Field(Flag(pending[i].value == "true"))))
  {
    hide Apply, Touches, ReadCell, StoredAs, LookupItem, ReplayTouches, SetsField, SetsTelemetry, Replay;
    if Replay(data, existed, pending).Done? {
      var before := ReplayParts(data, existed, pending, i);
      var m := pending[i];
      SetValueMeans(before, existed, m.name, m.key, m.value, field);
      SetReadsBack(Apply(before, existed, m), m.name, field);
      var next := Apply(before, existed, m).value;
      ReplayKeepsUntouched(next, existed, pending[i + 1..], FieldCell(m.name, field));
      ReplayKeepsUntouched(next, existed, pending[i + 1..], TelemetryCell("enabled"));
    }
  }

  lemma SetReadsBack(r: Result<Data>, profile: string, field: string)
    ensures r.Done? && Has(r.value, profile) && field in ProfileOf(r.value, profile) ==>
              ReadCell(r.value, FieldCell(profile, field)) == Some(Field(ProfileOf(r.value, profile)[field]))
    ensures r.Done? && r.value.telemetry.Some? && r.value.telemetry.value.Telemetry?
            && "enabled" in r.value.telemetry.value.fields ==>
              ReadCell(r.value, TelemetryCell("enabled")) == Some(Field(r.value.telemetry.value.fields["enabled"]))
  {
    hide Find;
  }

  /** A replay that ends well is the changes before one, that change, and the changes behind it. */
  lemma {:induction false} ReplayParts(data: Data, existed: bool, pending: seq<Mutation>, i: nat) returns (before: Data)
    requires Shaped(data) && i < |pending| && Replay(data, existed, pending).Done?
    ensures Shaped(before) && Replay(data, existed, pending[..i]) == Done(before)
    ensures Apply(before, existed, pending[i]).Done?
    ensures Replay(data, existed, pending[..i + 1]) == Apply(before, existed, pending[i])
    ensures
      Replay(data, existed, pending) == Replay(Apply(before, existed, pending[i]).value, existed, pending[i + 1..])
    decreases i
  {
    hide Apply;
    if i == 0 {
      before := data;
      assert pending[..0] == [] && pending[..1] == [pending[0]] && pending[..1][1..] == [];
      assert Replay(data, existed, pending[..1]) == Apply(data, existed, pending[0]);
    } else {
      var next := Apply(data, existed, pending[0]).value;
      before := ReplayParts(next, existed, pending[1..], i - 1);
      assert pending[..i][0] == pending[0] && pending[..i][1..] == pending[1..][..i - 1];
      assert pending[..i + 1][0] == pending[0] && pending[..i + 1][1..] == pending[1..][..i];
      assert pending[1..][i - 1] == pending[i] && pending[1..][i..] == pending[i + 1..];
    }
  }

  predicate SetsCredential(key: string, field: string) {
    field in {"access_key_id", "access_key_secret", "sts_token"} && SetsField(key, field)
  }

  /** After a credential is set, the profile's mode tells whether a session token is stored, and it is current. */
  lemma ModeTellsSessionToken(data: Data, existed: bool, m: Mutation)
    requires Shaped(data) && m.SetValue? && m.name != ""
    ensures
      var r := Apply(data, existed, m);
      r.Done? && (exists field :: SetsCredential(m.key, field)) ==>
        var after, fields := r.value, ProfileOrNew(r.value, m.name);
        && Current(after) == m.name && Has(after, m.name)
        && StringField(fields, "mode") == if StringField(fields, "sts_token") != "" then "StsToken" else "AK"
  {
    hide Find, LookupItem, ValidRegion, PutProfile, SetsField, StoredAs;
    var item := LookupItem(m.key);
    if field :| Apply(data, existed, m).Done? && SetsCredential(m.key, field) {
      KeysAreKnown(m.key, field);
      FieldsOfItems(item.value);
      NameStays(data, m.name, item.value, m.value);
      var fields := Mode(item.value, ProfileOrNew(data, m.name)[StoredAs(item.value) := Text(m.value)]);
      PutChangesOne(data, m.name, fields, m.name);
      HasIgnoresCurrent(PutProfile(data, m.name, fields), Some(m.name), m.name);
    }
  }

  lemma HasIgnoresCurrent(data: Data, current: Option<string>, name: string)
    ensures Has(data.(current := current), name) == Has(data, name)
    ensures ProfileOrNew(data.(current := current), name) == ProfileOrNew(data, name)
  {}

  // ------------------------------------------------------------------
  // Logins.

  function LoginFields(m: OAuth): Fields {
    map["mode" := Text("OAuth"), "oauth_site_type" := Text(Site(m.siteType)), "oauth_generation" := Text(m.generation)]
    + (if m.accountId != "" then map["oauth_account_id" := Text(TrimSpace(m.accountId))] else map[])
  }

  /** What a login leaves: its own authentication, and nothing else of that profile changed. */
  lemma LoginReplacesOnlyAuth(data: Data, existed: bool, name: string, m: OAuth, field: string)
    requires Shaped(data) && Apply(data, existed, SetOAuth(name, m)).Done?
    ensures
      var after, profile := Apply(data, existed, SetOAuth(name, m)).value, TrimSpace(name);
      var fields, before := ProfileOrNew(after, profile), ProfileOrNew(data, profile);
      && Has(after, profile)
      && (field !in AUTH_KEYS ==> (field in fields <==> field in before))
      && (field !in AUTH_KEYS && field in fields ==> fields[field] == before[field])
      && AuthOf(fields) == Auth(profile, LoginFields(m))
      && after.current == (if Current(data) == m.expectedCurrent then Some(profile) else data.current)
      && after.telemetry == data.telemetry && after.rest == data.rest
  {
    hide Find, TrimSpace, Site, Expected, ValidOAuth, PutProfile, AUTH_KEYS;
    var profile := TrimSpace(name);
    var fields := LoggedIn(ProfileOrNew(data, profile), m);
    LoginKeepsName(data, profile, m);
    PlainKeys();
    AuthOfLogin(ProfileOrNew(data, profile), m);
    PutChangesOne(data, profile, fields, profile);
    PutKeepsCell(data, profile, fields, CurrentCell);
    HasIgnoresCurrent(PutProfile(data, profile, fields), Some(profile), profile);
  }

  lemma AuthOfLogin(before: Fields, m: OAuth)
    ensures AuthOf(LoggedIn(before, m)).fields == LoginFields(m)
  {
    hide TrimSpace, Site, AUTH_KEYS;
    PlainKeys();
  }

  /** The fields that any kind of authentication but a login's own keeps in a profile. */
  predicate IsCredential(field: string) {
    field in {
      "access_key_id", "access_key_secret", "sts_token", "sts_expiration",
      "ram_role_name", "ram_role_arn", "ram_session_name", "source_profile", "expired_seconds", "policy",
      "external_id", "sts_endpoint", "sts_region", "enable_vpc", "oidc_provider_arn", "oidc_token_file",
      "oauth_refresh_token", "oauth_refresh_token_expire", "oauth_access_token", "oauth_access_token_expire",
      "cloud_sso_sign_in_url", "cloud_sso_account_id", "cloud_sso_access_config", "access_token",
      "cloud_sso_access_token_expire", "process_command", "credentials_uri", "bearer_token",
      "bearer_token_header_key"}
  }

  lemma EarlierKeys(field: string)
    requires IsCredential(field)
    ensures field in AUTH_KEYS && field !in {"mode", "oauth_site_type", "oauth_generation", "oauth_account_id"}
  {
  }

  /** No credential of an earlier kind is left beside a login. */
  lemma LoginForgetsCredentials(data: Data, existed: bool, name: string, m: OAuth, field: string)
    requires Shaped(data) && Apply(data, existed, SetOAuth(name, m)).Done?
    requires IsCredential(field)
    ensures field !in ProfileOrNew(Apply(data, existed, SetOAuth(name, m)).value, TrimSpace(name))
  {
    hide *;
    EarlierKeys(field);
    LoginReplacesOnlyAuth(data, existed, name, m, field);
    AuthHasField(ProfileOrNew(Apply(data, existed, SetOAuth(name, m)).value, TrimSpace(name)), field);
    LoginFieldsAre(m, field);
  }

  lemma AuthHasField(fields: Fields, field: string)
    requires field in AUTH_KEYS
    ensures field in AuthOf(fields).fields <==> field in fields
  {
    hide AUTH_KEYS, StringField;
  }

  lemma LoginFieldsAre(m: OAuth, field: string)
    ensures field in LoginFields(m) ==> field in {"mode", "oauth_site_type", "oauth_generation", "oauth_account_id"}
  {
    hide Site, TrimSpace;
  }

  /**
   * A login is stored exactly if its names are well formed and the configuration
   * is still the one that it was made against.
   */
  lemma LoginIsConditional(data: Data, existed: bool, name: string, m: OAuth)
    requires Shaped(data)
    ensures
      var profile, site, r := TrimSpace(name), ToUpper(TrimSpace(m.siteType)), Apply(data, existed, SetOAuth(name, m));
      var formed := profile != "" && '\r' !in profile && '\n' !in profile && '\0' !in profile
                    && (site == "CN" || site == "INTL") && TrimSpace(m.generation) != ""
                    && (m.accountId != "" ==>
                          |TrimSpace(m.accountId)| == 16
                          && forall i :: 0 <= i < 16 ==> '0' <= TrimSpace(m.accountId)[i] <= '9');
      var same := existed == m.expectedConfigExisted && Has(data, profile) == m.expectedExists
                  && AuthOf(ProfileOrNew(data, profile)) == m.expectedAuth;
      && (r.Done? <==> formed && same)
      && (r == Refused(CredentialProfileChanged) <==> formed && !same)
  {
    hide Find, TrimSpace, AuthOf, PutProfile, LoggedIn, ToUpper;
  }

  /** Of two logins made against the same record, the second to be saved is refused. */
  lemma LoginsDoNotOverwrite(data: Data, existed: bool, later: bool, name: string, first: OAuth, second: OAuth)
    requires Shaped(data) && Apply(data, existed, SetOAuth(name, first)).Done?
    requires second.expectedAuth == first.expectedAuth && ValidOAuth(name, second)
    requires StringField(first.expectedAuth.fields, "oauth_generation") != first.generation
    ensures Apply(Apply(data, existed, SetOAuth(name, first)).value, later, SetOAuth(name, second)) ==
            Refused(CredentialProfileChanged)
  {
    hide Find, TrimSpace, Site, ValidOAuth, PutProfile, LoggedIn, AuthOf;
    LoginReplacesOnlyAuth(data, existed, name, first, "mode");
    var after, profile := Apply(data, existed, SetOAuth(name, first)).value, TrimSpace(name);
    assert StringField(AuthOf(ProfileOrNew(after, profile)).fields, "oauth_generation") == first.generation;
  }

  /** A setting that is no credential, made to a profile that is there, does not stand in the way of a login. */
  lemma SettingsDoNotBlockLogin(data: Data, existed: bool, m: Mutation, name: string, login: OAuth)
    requires Shaped(data) && m.SetValue? && Apply(data, existed, m).Done? && name != ""
    requires LookupItem(m.key).Some? && !SetsMode(LookupItem(m.key).value)
    requires Has(data, if m.name == "" then Current(data) else m.name)
    ensures Expected(Apply(data, existed, m).value, existed, name, login) == Expected(data, existed, name, login)
  {
    hide Find, LookupItem, ValidValue, PutProfile, AUTH_KEYS;
    var item := LookupItem(m.key).value;
    if item.TelemetryEnabled? {
      assert Has(Apply(data, existed, m).value, name) == Has(data, name);
    } else {
      var profile := if m.name == "" then Current(data) else m.name;
      var fields := ProfileOrNew(data, profile)[StoredAs(item) := Text(m.value)];
      NameStays(data, profile, item, m.value);
      PlainKeys();
      PutChangesOne(data, profile, fields, name);
      HasIgnoresCurrent(PutProfile(data, profile, fields), Some(profile), name);
      assert AuthOf(fields) == AuthOf(ProfileOrNew(data, profile));
    }
  }

  // ------------------------------------------------------------------
  // The store and its file.

  datatype FileState = Absent | Garbage(id: int) | Holds(data: Data)

  class ConfigFile {
    var state: FileState
    var readOnly: bool

    constructor (state: FileState, readOnly: bool)
      ensures this.state == state && this.readOnly == readOnly
    {
      this.state, this.readOnly := state, readOnly;
    }
  }

  predicate HasOAuth(pending: seq<Mutation>) {
    exists i :: 0 <= i < |pending| && pending[i].SetOAuth?
  }

  predicate Trimmed(name: string) {
    name != "" && TrimSpace(name) == name
  }

  /** decodeNativeStoreData is strict about the current profile and the profiles' names. */
  predicate StrictlyValid(data: Data) {
    && data.current.Some? && Trimmed(data.current.value) && data.profiles.Some?
    && var profiles := data.profiles.value;
       && (forall i :: 0 <= i < |profiles| ==>
             profiles[i].Profile? && Trimmed(StringField(profiles[i].fields, "name")))
       && (forall i, j :: 0 <= i < j < |profiles| ==>
             StringField(profiles[i].fields, "name") != StringField(profiles[j].fields, "name"))
  }

  /** What a save would put on disk, or why it would not. */
  function Outcome(state: FileState, readOnly: bool, memory: Data, existed: bool, pending: seq<Mutation>): Result<Data>
  {
    if state.Garbage? || (state.Holds? && HasOAuth(pending) && !StrictlyValid(state.data)) then Refused(Undecodable)
    else
      var disk := EnsureShape(if state.Holds? then state.data else Data(None, None, None, map[]));
      if pending == [] && existed then Done(disk)
      else
        var r := if pending == [] then Done(EnsureShape(memory)) else Replay(disk, state.Holds?, pending);
        if r.Done? && state.Holds? && readOnly then Refused(ReadOnly) else r
  }

  lemma {:induction false} ReplayDecodes(data: Data, existed: bool, pending: seq<Mutation>)
    requires Shaped(data)
    ensures Replay(data, existed, pending) != Refused(Undecodable)
    decreases |pending|
  {
    hide Find, TrimSpace, LookupItem, ValidValue, PutProfile, LoggedIn, Expected, ValidOAuth;
    if pending != [] && Apply(data, existed, pending[0]).Done? {
      ReplayDecodes(Apply(data, existed, pending[0]).value, existed, pending[1..]);
    }
  }

  /**
   * What can be saved over: any configuration that decodes, and for a login only
   * one whose current profile and profiles have names without space around them,
   * no two the same.
   */
  lemma LoginNeedsStrictFile(onDisk: Data, readOnly: bool, memory: Data, existed: bool, pending: seq<Mutation>)
    ensures
      var undecodable := Outcome(Holds(onDisk), readOnly, memory, existed, pending) == Refused(Undecodable);
      var strict :=
        && onDisk.current.Some? && onDisk.current.value != "" && onDisk.profiles.Some?
        && TrimSpace(onDisk.current.value) == onDisk.current.value
        && (forall p :: p in onDisk.profiles.value ==>
              && p.Profile? && StringField(p.fields, "name") != ""
              && TrimSpace(StringField(p.fields, "name")) == StringField(p.fields, "name"))
        && (forall i, j :: 0 <= i < j < |onDisk.profiles.value| ==>
              StringField(onDisk.profiles.value[i].fields, "name") !=
              StringField(onDisk.profiles.value[j].fields, "name"));
      undecodable <==> !strict && exists m :: m in pending && m.SetOAuth?
  {
    hide TrimSpace, EnsureShape, StringField, Replay;
    ReplayDecodes(EnsureShape(onDisk), true, pending);
    if m :| m in pending && m.SetOAuth? {
      var i :| 0 <= i < |pending| && pending[i] == m;
      assert HasOAuth(pending);
    }
  }

  /** A login over such a file leaves one, so the next login can be saved too. */
  lemma LoginKeepsFileStrict(data: Data, existed: bool, name: string, m: OAuth)
    requires StrictlyValid(data) && Apply(data, existed, SetOAuth(name, m)).Done?
    ensures StrictlyValid(Apply(data, existed, SetOAuth(name, m)).value)
  {
    hide Find, TrimSpace, Expected, LoggedIn, StringField;
    var profile := TrimSpace(name);
    var fields := LoggedIn(ProfileOrNew(data, profile), m);
    LoginKeepsName(data, profile, m);
    TrimTwice(name);
    PutKeepsStrict(data, profile, fields);
  }

  lemma PutKeepsStrict(data: Data, name: string, fields: Fields)
    requires StrictlyValid(data) && Trimmed(name) && StringField(fields, "name") == name
    ensures StrictlyValid(PutProfile(data, name, fields))
    ensures StrictlyValid(PutProfile(data, name, fields).(current := Some(name)))
  {
    hide TrimSpace, Find, StringField;
  }

  class Store {
    var existed: bool
    var data: Data
    var pending: seq<Mutation>
    /** What was on disk when the record began. */
    ghost var base: Data

    /** The memory is what a save would write if nobody else has written. */
    ghost predicate Valid()
      reads this
    {
      Shaped(base) && Shaped(data) && Replay(base, existed, pending) == Done(data)
    }

    /** LoadStore, when the file can be read. */
    constructor (file: ConfigFile)
      requires !file.state.Garbage?
      ensures Valid() && pending == [] && existed == file.state.Holds? && base == data
      ensures data == EnsureShape(if file.state.Holds? then file.state.data else Data(None, None, None, map[]))
    {
      existed := file.state.Holds?;
      data := EnsureShape(if file.state.Holds? then file.state.data else Data(None, None, None, map[]));
      pending := [];
      base := EnsureShape(if file.state.Holds? then file.state.data else Data(None, None, None, map[]));
    }

    /** SetValue, UseProfile, SetCurrentProfile, SetNativeOAuthProfile: change the memory and record it. */
    method Record(m: Mutation) returns (r: Result<Data>)
      requires Valid()
      modifies this
      ensures Valid() && base == old(base)
      ensures r == Apply(old(data), old(existed), m) && existed == old(existed)
      ensures if r.Done? then data == r.value && pending == old(pending) + [Resolved(old(data), m)]
              else data == old(data) && pending == old(pending)
    {
      r := Apply(data, existed, m);
      if r.Refused? { return; }
      RecordedIsApplied(data, existed, m);
      ReplayMore(base, existed, pending, Resolved(data, m));
      pending := pending + [Resolved(data, m)];
      data := r.value;
    }

    /** SaveContext, under the lock of the file; `write` is how AtomicWrite ends. */
    method SaveContext(file: ConfigFile, write: FilePrimitives.WriteResult) returns (r: Result<()>)
      requires Valid()
      modifies this, file`state
      ensures
        var outcome := Outcome(old(file.state), file.readOnly, old(data), old(existed), old(pending));
        var idle := old(pending) == [] && old(existed);
        match outcome
        case Refused(problem) =>
          r == Refused(problem) && file.state == old(file.state) && unchanged(this)
        case Done(saved) =>
          && file.state == (if idle || write.OtherError? then old(file.state) else Holds(saved))
          && (r == if idle || write.Nil? then Done(()) else Refused(WriteFailed(write.PostCommitError?)))
          && (if r.Done? then data == saved && existed && pending == [] else unchanged(this))
      ensures Valid()
      // When nobody else has written since, what is written is the memory.
      ensures
        var disk := if old(file.state).Holds? then old(file.state).data else Data(None, None, None, map[]);
        !old(file.state).Garbage? && EnsureShape(disk) == old(base) && old(file.state).Holds? == old(existed)
        && old(pending) != [] && r.Done? ==>
          file.state == Holds(old(data))
    {
      hide Apply, StrictlyValid;
      var strictNativeOAuth := HasOAuth(pending);
      var current := Data(None, None, None, map[]);
      match file.state {
        case Garbage(_) => return Refused(Undecodable);
        case Holds(onDisk) =>
          if strictNativeOAuth && !StrictlyValid(onDisk) { return Refused(Undecodable); }
          current := onDisk;
        case Absent =>
      }
      current := EnsureShape(current);
      if |pending| == 0 && existed {
        data, base := current, current;
        return Done(());
      }
      if |pending| == 0 {
        current := EnsureShape(data);
      } else {
        ghost var disk := current;
        assert pending[0..] == pending;
        for i := 0 to |pending|
          invariant Shaped(current)
          invariant Replay(disk, file.state.Holds?, pending) == Replay(current, file.state.Holds?, pending[i..])
        {
          assert pending[i..][0] == pending[i] && pending[i..][1..] == pending[i + 1..];
          var applied := Apply(current, file.state.Holds?, pending[i]);
          if applied.Refused? { return Refused(applied.problem); }
          current := applied.value;
        }
        assert pending[|pending|..] == [];
      }
      if file.state.Holds? && file.readOnly { return Refused(ReadOnly); }
      if !write.OtherError? { file.state := Holds(current); }
      if !write.Nil? { return Refused(WriteFailed(write.PostCommitError?)); }
      data, existed, pending, base := current, true, [], current;
      return Done(());
    }
  }
}
