/** From the profile of a requested account to the field map that creates the user. */
module AccountRequest {
  import opened Collections
  import opened Salesforce

  /** A value of the profile struct; a value without a kind is possible. */
  datatype ProfileValue =
    | StringValue(text: string) | NumberValue(number: real) | BoolValue(flag: bool) | NullValue
    | StructValue | ListValue | NoKind

  type AccountProfile = map<string, ProfileValue>

  /** The keys of accountCreationSchema. */
  const SCHEMA := {"email", "profileId", "alias", "first_name", "last_name", "timezone", "contactID"}
  const REQUIRED := SCHEMA - {"contactID"}

  datatype UserCreateRequest = UserCreateRequest(
    email: string, alias: string, lastName: string, firstName: string,
    profileId: string, timeZone: string, contactID: string,
    extraFields: map<string, Value>)

  function StringOf(profile: AccountProfile, key: string): Option<string> {
    if key in profile && profile[key].StringValue? then Some(profile[key].text) else None
  }

  /** A required key must hold a string, possibly an empty one. */
  ghost predicate HasRequired(profile: AccountProfile) {
    forall key :: key in REQUIRED ==> StringOf(profile, key).Some?
  }

  predicate Supported(v: ProfileValue) {
    v.StringValue? || v.NumberValue? || v.BoolValue? || v.NullValue?
  }

  function Plain(v: ProfileValue): Value
    requires Supported(v)
  {
    match v
    case StringValue(s) => Text(s)
    case NumberValue(n) => Number(n)
    case BoolValue(b) => Flag(b)
    case NullValue => Null
  }

  /** Every required key holds a string, and no extra key holds anything but a plain value. */
  ghost predicate Acceptable(profile: AccountProfile) {
    HasRequired(profile) && forall key :: key in profile && key !in SCHEMA ==> Supported(profile[key])
  }

  /** The keys that are passed through: outside the schema, with a value other than null. */
  predicate IsExtra(profile: AccountProfile, key: string) {
    key in profile && key !in SCHEMA && Supported(profile[key]) && !profile[key].NullValue?
  }

  ghost predicate ExtrasUpTo(profile: AccountProfile, done: set<string>, extras: map<string, Value>) {
    && (forall key :: key in extras <==> key in done && IsExtra(profile, key))
    && (forall key :: key in extras ==> extras[key] == Plain(profile[key]))
  }

  /** The loop over the profile visits its keys in any order; the outcome depends on none. */
  method CollectExtras(profile: AccountProfile) returns (r: Result<map<string, Value>>)
    ensures r.Ok? <==> forall key :: key in profile && key !in SCHEMA ==> Supported(profile[key])
    ensures r.Ok? ==> ExtrasUpTo(profile, profile.Keys, r.value)
    ensures r.Err? ==> r.error == InvalidRequest
  {
    var extras: map<string, Value> := map[];
    var remaining := profile.Keys;
    while remaining != {}
      invariant remaining <= profile.Keys
      invariant forall key :: key in profile.Keys - remaining && key !in SCHEMA ==> Supported(profile[key])
      invariant ExtrasUpTo(profile, profile.Keys - remaining, extras)
      decreases |remaining|
    {
      var key :| key in remaining;
      remaining := remaining - {key};
      if key !in SCHEMA {
        match profile[key] {
          case StringValue(s) => extras := extras[key := Text(s)];
          case NumberValue(n) => extras := extras[key := Number(n)];
          case BoolValue(b) => extras := extras[key := Flag(b)];
          case NullValue =>
          case _ => return Err(InvalidRequest);
        }
      }
    }
    r := Ok(extras);
  }

  method GetUserCreateRequestParams(profile: AccountProfile) returns (r: Result<UserCreateRequest>)
    ensures r.Ok? <==> Acceptable(profile)
    ensures r.Ok? ==> Requests(profile, r.value)
    ensures r.Err? ==> r.error == InvalidRequest
  {
    var email := StringOf(profile, "email");
    if email.None? {
      return Err(InvalidRequest);
    }
    var alias := StringOf(profile, "alias");
    if alias.None? {
      return Err(InvalidRequest);
    }
    var firstName := StringOf(profile, "first_name");
    if firstName.None? {
      return Err(InvalidRequest);
    }
    var lastName := StringOf(profile, "last_name");
    if lastName.None? {
      return Err(InvalidRequest);
    }
    var profileId := StringOf(profile, "profileId");
    if profileId.None? {
      return Err(InvalidRequest);
    }
    var timezone := StringOf(profile, "timezone");
    if timezone.None? {
      return Err(InvalidRequest);
    }
    var contactID := StringOf(profile, "contactID");
    var extras := CollectExtras(profile);
    if extras.Err? {
      return Err(extras.error);
    }
    r := Ok(UserCreateRequest(email.value, alias.value, lastName.value, firstName.value, profileId.value,
                              timezone.value, if contactID.Some? then contactID.value else "", extras.value));
  }

  /** The request takes each of its fields from the profile key that is meant for it. */
  ghost predicate Requests(profile: AccountProfile, request: UserCreateRequest) {
    && StringOf(profile, "email") == Some(request.email)
    && StringOf(profile, "alias") == Some(request.alias)
    && StringOf(profile, "first_name") == Some(request.firstName)
    && StringOf(profile, "last_name") == Some(request.lastName)
    && StringOf(profile, "profileId") == Some(request.profileId)
    && StringOf(profile, "timezone") == Some(request.timeZone)
    && request.contactID == (if StringOf(profile, "contactID").Some? then StringOf(profile, "contactID").value else "")
    && ExtrasUpTo(profile, profile.Keys, request.extraFields)
  }

  // ---------------------------------------------------------------- the field map

  const DEFAULTS: map<string, Value> := map[
    "EmailEncodingKey" := Text("UTF-8"),
    "LocaleSidKey" := Text("en_US"),
    "LanguageLocaleKey" := Text("en_US")]

  /** The profile key behind each field of a new user that the connector itself decides. */
  const CORE: map<string, string> := map[
    "Username" := "email", "Email" := "email", "Alias" := "alias", "LastName" := "last_name",
    "FirstName" := "first_name", "TimeZoneSidKey" := "timezone", "ProfileId" := "profileId"]

  function CoreFields(request: UserCreateRequest): map<string, Value> {
    map["Username" := Text(request.email), "Alias" := Text(request.alias), "Email" := Text(request.email),
        "LastName" := Text(request.lastName), "FirstName" := Text(request.firstName),
        "TimeZoneSidKey" := Text(request.timeZone), "ProfileId" := Text(request.profileId)]
  }

  function ContactFields(request: UserCreateRequest): map<string, Value> {
    if request.contactID == "" then map[] else map["ContactId" := Text(request.contactID)]
  }

  /** Later layers win: defaults, then extra fields, then core fields. */
  function FieldMap(request: UserCreateRequest): map<string, Value> {
    DEFAULTS + request.extraFields + CoreFields(request) + ContactFields(request)
  }

  /** `userData` is `base` with the fields in `done` taken from `over`. */
  ghost predicate Merged(base: map<string, Value>, over: map<string, Value>, done: set<string>,
                         userData: map<string, Value>)
  {
    && userData.Keys == base.Keys + done
    && forall key :: key in userData ==>
         (key in done ==> key in over && userData[key] == over[key])
         && (key !in done ==> key in base && userData[key] == base[key])
  }

  /** The extra fields overwrite what is there in place, one by one in any order. */
  method MergeExtras(base: map<string, Value>, extraFields: map<string, Value>) returns (userData: map<string, Value>)
    ensures userData == base + extraFields
  {
    userData := base;
    var remaining := extraFields.Keys;
    while remaining != {}
      invariant remaining <= extraFields.Keys
      invariant Merged(base, extraFields, extraFields.Keys - remaining, userData)
      decreases |remaining|
    {
      var key :| key in remaining;
      remaining := remaining - {key};
      userData := userData[key := extraFields[key]];
    }
  }

  /** The core fields overwrite whatever is there. */
  method SetCore(base: map<string, Value>, request: UserCreateRequest) returns (userData: map<string, Value>)
    ensures userData == base + CoreFields(request)
  {
    userData := base["Username" := Text(request.email)];
    userData := userData["Alias" := Text(request.alias)];
    userData := userData["Email" := Text(request.email)];
    userData := userData["LastName" := Text(request.lastName)];
    userData := userData["FirstName" := Text(request.firstName)];
    userData := userData["TimeZoneSidKey" := Text(request.timeZone)];
    userData := userData["ProfileId" := Text(request.profileId)];
  }

  /** The part of CreateUser that builds the field map. */
  method UserData(request: UserCreateRequest) returns (userData: map<string, Value>)
    ensures userData == FieldMap(request)
  {
    hide CoreFields;
    userData := MergeExtras(DEFAULTS, request.extraFields);
    userData := SetCore(userData, request);
    if request.contactID != "" {
      userData := userData["ContactId" := Text(request.contactID)];
    }
  }

  /** The user name and the email are the requested email, whatever the extra fields say. */
  lemma EmailIsUsername(request: UserCreateRequest)
    ensures var sent := FieldMap(request);
            && "Username" in sent && sent["Username"] == Text(request.email)
            && "Email" in sent && sent["Email"] == Text(request.email)
  {
    var core := CoreFields(request);
    assert "Username" in core && "Email" in core && core["Username"] == core["Email"] == Text(request.email);
    hide CoreFields;
    assert "Username" !in ContactFields(request) && "Email" !in ContactFields(request);
  }

  /** Where a field of the new user comes from, read off the profile alone. */
  function FieldSource(profile: AccountProfile, field: string): Option<Value> {
    if field in CORE && StringOf(profile, CORE[field]).Some? then Some(Text(StringOf(profile, CORE[field]).value))
    else if field == "ContactId" && StringOf(profile, "contactID").Some?
            && StringOf(profile, "contactID").value != "" then
      Some(Text(StringOf(profile, "contactID").value))
    else if IsExtra(profile, field) then Some(Plain(profile[field]))
    else if field in DEFAULTS then Some(DEFAULTS[field])
    else None
  }

  /**
   From profile to field map in closed form: a core field comes from its own profile key
   whatever the extra fields say, an extra field beats a default, null and schema keys
   leave no trace of their own, and nothing else is sent.
   */
  lemma FieldsComeFromProfile(profile: AccountProfile, request: UserCreateRequest, field: string)
    requires Requests(profile, request)
    ensures var sent := FieldMap(request);
            FieldSource(profile, field) == if field in sent then Some(sent[field]) else None
  {
    hide Requests, CoreFields, ContactFields, StringOf, IsExtra, Plain;
    Layers(profile, request, field);
  }

  lemma Layers(profile: AccountProfile, request: UserCreateRequest, field: string)
    requires Requests(profile, request)
    ensures field in CoreFields(request) <==> field in CORE
    ensures field in CORE ==> StringOf(profile, CORE[field]).Some?
                              && CoreFields(request)[field] == Text(StringOf(profile, CORE[field]).value)
    ensures var contact := StringOf(profile, "contactID");
            && (field in ContactFields(request) <==> field == "ContactId" && contact.Some? && contact.value != "")
            && (field in ContactFields(request) ==> ContactFields(request)[field] == Text(contact.value))
    ensures field in request.extraFields <==> IsExtra(profile, field)
    ensures IsExtra(profile, field) ==> request.extraFields[field] == Plain(profile[field])
  {
    hide StringOf;
  }

  /** Profiles that agree on the schema keys and on their non-null extra keys create the same user. */
  lemma SameProfileSameFields(p: AccountProfile, q: AccountProfile, r: UserCreateRequest, s: UserCreateRequest)
    requires Requests(p, r) && Requests(q, s)
    requires forall key :: key in SCHEMA ==> StringOf(p, key) == StringOf(q, key)
    requires forall key :: (IsExtra(p, key) <==> IsExtra(q, key)) && (IsExtra(p, key) ==> p[key] == q[key])
    ensures FieldMap(r) == FieldMap(s)
  {
    hide FieldMap, Requests, IsExtra;
    forall field ensures field in FieldMap(r) <==> field in FieldMap(s)
                 ensures field in FieldMap(r) ==> FieldMap(r)[field] == FieldMap(s)[field]
    {
      FieldsComeFromProfile(p, r, field);
      FieldsComeFromProfile(q, s, field);
      assert field in CORE ==> CORE[field] in SCHEMA;
    }
  }

  /** Which profiles are accepted, key by key. */
  lemma AcceptableMeans(profile: AccountProfile)
    ensures Acceptable(profile) <==>
      && (forall key :: key in {"email", "alias", "first_name", "last_name", "profileId", "timezone"} ==>
            key in profile && profile[key].StringValue?)
      && (forall key :: key in profile
                        && (profile[key].StructValue? || profile[key].ListValue? || profile[key].NoKind?) ==>
            key in {"email", "alias", "first_name", "last_name", "profileId", "timezone", "contactID"})
  {
    assert REQUIRED == {"email", "alias", "first_name", "last_name", "profileId", "timezone"};
  }

  /** The core fields that are sent, each from its own key. */
  lemma CoreFieldsAreSent(profile: AccountProfile, request: UserCreateRequest)
    requires Requests(profile, request)
    ensures var sent := FieldMap(request);
            && SentFrom(sent, "Username", profile, "email") && SentFrom(sent, "Email", profile, "email")
            && SentFrom(sent, "Alias", profile, "alias") && SentFrom(sent, "LastName", profile, "last_name")
            && SentFrom(sent, "FirstName", profile, "first_name")
            && SentFrom(sent, "TimeZoneSidKey", profile, "timezone")
            && SentFrom(sent, "ProfileId", profile, "profileId")
  {
    hide FieldMap, Requests, FieldSource;
    CoreFieldIsSent(profile, request, "Username", "email");
    CoreFieldIsSent(profile, request, "Email", "email");
    CoreFieldIsSent(profile, request, "Alias", "alias");
    CoreFieldIsSent(profile, request, "LastName", "last_name");
    CoreFieldIsSent(profile, request, "FirstName", "first_name");
    CoreFieldIsSent(profile, request, "TimeZoneSidKey", "timezone");
    CoreFieldIsSent(profile, request, "ProfileId", "profileId");
  }

  ghost predicate SentFrom(sent: map<string, Value>, field: string, profile: AccountProfile, key: string) {
    key in profile && profile[key].StringValue? && field in sent && sent[field] == Text(profile[key].text)
  }

  lemma CoreFieldIsSent(profile: AccountProfile, request: UserCreateRequest, field: string, key: string)
    requires Requests(profile, request) && field in CORE && CORE[field] == key
    ensures SentFrom(FieldMap(request), field, profile, key)
  {
    hide FieldMap, IsExtra;
    FieldsComeFromProfile(profile, request, field);
    assert key in REQUIRED;
  }

  /** The fields that the connector decides: of other names, extra fields are sent as they are. */
  predicate Decided(field: string) {
    field in {"Username", "Email", "Alias", "LastName", "FirstName", "TimeZoneSidKey", "ProfileId"}
  }

  /**
   An extra field is sent unchanged, false as false and zero as zero; null is not sent,
   and leaves a default alone.
   */
  lemma ExtrasAreSentUnchanged(profile: AccountProfile, request: UserCreateRequest, key: string)
    requires Requests(profile, request) && key in profile && !Decided(key)
    requires key !in {"email", "alias", "first_name", "last_name", "profileId", "timezone", "contactID"}
    requires key == "ContactId" ==> request.contactID == ""
    ensures var sent := FieldMap(request);
            match profile[key]
            case StringValue(s) => key in sent && sent[key] == Text(s)
            case NumberValue(n) => key in sent && sent[key] == Number(n)
            case BoolValue(b) => key in sent && sent[key] == Flag(b)
            case NullValue =>
              if key == "EmailEncodingKey" then key in sent && sent[key] == Text("UTF-8")
              else if key == "LocaleSidKey" || key == "LanguageLocaleKey" then key in sent && sent[key] == Text("en_US")
              else key !in sent
            case _ => true
  {
    hide FieldMap;
    FieldsComeFromProfile(profile, request, key);
    assert key !in CORE;
  }

  /** The two layers above the defaults, field by field. */
  lemma Layered(request: UserCreateRequest, field: string)
    ensures var sent := FieldMap(request);
            "ProfileId" in sent && sent["ProfileId"] == Text(request.profileId)
    ensures field in request.extraFields && !Decided(field) && field != "ContactId" ==>
              field in FieldMap(request) && FieldMap(request)[field] == request.extraFields[field]
  {
    var core, contact := CoreFields(request), ContactFields(request);
    assert "ProfileId" in core && core["ProfileId"] == Text(request.profileId) && "ProfileId" !in contact;
    assert !Decided(field) ==> field !in core;
    assert field != "ContactId" ==> field !in contact;
    hide CoreFields, ContactFields, Decided;
  }
}
