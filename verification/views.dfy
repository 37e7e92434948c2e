/**
  The API request handlers as pure functions: each takes the database, the
  request and the current time (seconds), and returns what the client gets
  back together with the new database. Password hashing and token digests
  are opaque: the hash is a function parameter, the fresh digest a value.
*/
module Views {
  import opened Wrappers
  import opened Text
  import opened Models
  import opened Lists
  import opened Serializers
  import opened Store

  /** Token lifetimes, in seconds. */
  const Day := 86400
  const LoginLifetime := 7 * Day
  const ResetLifetime := Day

  const SiteUrl := "http://localhost:5173"

  /** The user fields a successful login reports. */
  datatype UserInfo = UserInfo(id: int, username: string, email: string)

  /** A JSON response: HTTP status, `success` flag, message and the optional payload fields. */
  datatype Reply = Reply(
    status: int,
    success: bool,
    message: string,
    character: Option<Character>,
    token: Option<string>,
    user: Option<UserInfo>)

  /**
    What a handler produces: a reply; `None` returned by the view, which the
    framework refuses with a server error; or an exception that escaped the
    handler.
  */
  datatype Outcome = Replied(reply: Reply) | NoReply | Raised

  /** An email the handler sent. */
  datatype Mail = Mail(recipient: string, subject: string, link: string)

  /** A handler's outcome, the database after it, and the mail it sent, if any. */
  datatype Handled = Handled(outcome: Outcome, store: Store, mail: Option<Mail>)

  function Plain(status: int, success: bool, message: string): Reply {
    Reply(status, success, message, None, None, None)
  }

  /** A reply with the given status and success flag. */
  predicate RepliedWith(o: Outcome, status: int, success: bool) {
    o.Replied? && o.reply.status == status && o.reply.success == success
  }

  // ---------------------------------------------------------------------------
  // Bearer authentication
  // ---------------------------------------------------------------------------

  /** The second space-separated field of an Authorization header (`header.split(' ')[1]`). */
  function BearerToken(header: string): (t: string)
    requires StartsWith(header, "Bearer ")
    ensures ' ' !in t
  {
    assert header[6] == "Bearer "[6];
    Fields(header, ' ')[1]
  }

  /** The token sent as "Bearer {t}" is read back as `t` when it has no space in it. */
  lemma BearerTokenOf(t: string)
    requires ' ' !in t
    ensures StartsWith("Bearer " + t, "Bearer ")
    ensures BearerToken("Bearer " + t) == t
  {
    assert "Bearer " + t == "Bearer" + [' '] + t;
    FieldsConcat("Bearer", t, ' ');
    FieldsNoSep(t, ' ');
  }

  /** Who a request authenticates as; `AuthFailure` is an exception the helper does not catch. */
  datatype Auth = Authenticated(user: User) | Anonymous | AuthFailure

  /**
    The user behind a bearer header: none without a header starting with
    "Bearer "; otherwise the owner of the single token row with exactly that
    string which expires strictly after `now` and is unused.
  */
  function UserFromToken(s: Store, header: Option<string>, now: int): (a: Auth)
    ensures (header.None? || !StartsWith(header.value, "Bearer ")) ==> a == Anonymous
    ensures a.Authenticated? ==> (header.Some? && StartsWith(header.value, "Bearer ")
      && a.user in s.users
      && exists k :: k in s.tokens && IsLive(k, BearerToken(header.value), now) && k.userId == a.user.id)
  {
    if header.None? || !StartsWith(header.value, "Bearer ") then Anonymous
    else
      var token := BearerToken(header.value);
      match Get(s.tokens, Live(token, now))
      case NotFound => Anonymous
      case Multiple => AuthFailure
      case Found(k) =>
        match Get(s.users, HasId(k.userId))
        case NotFound => Anonymous
        case Multiple => AuthFailure
        case Found(u) => Authenticated(u)
  }

  /** Without a live token carrying the header's string, nobody is authenticated. */
  lemma NoLiveTokenNoUser(s: Store, header: string, now: int)
    requires StartsWith(header, "Bearer ")
    requires forall i :: 0 <= i < |s.tokens| ==> !IsLive(s.tokens[i], BearerToken(header), now)
    ensures UserFromToken(s, Some(header), now) == Anonymous
  {
    FilterNone(s.tokens, Live(BearerToken(header), now));
  }

  // ---------------------------------------------------------------------------
  // Character creation and retrieval
  // ---------------------------------------------------------------------------

  /** A character-creation request: header and body fields; `None` is an absent key. */
  datatype CreationRequest = CreationRequest(
    authorization: Option<string>,
    name: Option<string>,
    faction: Option<string>,
    race: Option<string>,
    characterClass: Option<string>,
    level: Option<int>,
    experience: Option<int>,
    gold: Option<int>)

  const AuthMessage := "Invalid or expired authentication token."
  const ExistingMessage := "You already have an active character. Only one character per account is allowed."
  const CreateErrorMessage := "An error occurred while creating your character."
  const NotFoundMessage := "No active character found."
  const RetrieveErrorMessage := "An error occurred while retrieving your character."

  /** The serializer framework's field-level messages. */
  const NullMessage := "This field may not be null."
  const BlankMessage := "This field may not be blank."
  const TooLongMessage := "Ensure this field has no more than 255 characters."
  const NullCharMessage := "Null characters are not allowed."

  /** The error of a choice field, if its value is missing or not one of the choices. */
  function ChoiceError(value: Option<string>, choices: seq<string>): (e: Option<string>)
    ensures e.None? <==> value.Some? && value.value in choices
  {
    match value
    case None => Some(NullMessage)
    case Some(v) => if v in choices then None else Some("\"" + v + "\" is not a valid choice.")
  }

  /**
    The first error of the name field: blank once stripped; then the
    validators in their order, longer than 255 characters before holding a
    NUL character.
  */
  function NameError(name: string): (e: Option<string>)
    ensures e.None? <==> PyStrip(name) != "" && |PyStrip(name)| <= 255 && '\U{0}' !in PyStrip(name)
    ensures PyStrip(name) == "" ==> e == Some(BlankMessage)
    ensures PyStrip(name) != "" && |PyStrip(name)| > 255 ==> e == Some(TooLongMessage)
    ensures PyStrip(name) != "" && |PyStrip(name)| <= 255 && '\U{0}' in PyStrip(name) ==> e == Some(NullCharMessage)
  {
    var n := PyStrip(name);
    if n == "" then Some(BlankMessage)
    else if |n| > 255 then Some(TooLongMessage)
    else if '\U{0}' in n then Some(NullCharMessage)
    else None
  }

  /** The present entries, in order. */
  function Present(es: seq<Option<string>>): (r: seq<string>)
    ensures |r| == 0 <==> forall i :: 0 <= i < |es| ==> es[i].None?
    ensures |r| <= |es|
  {
    if |es| == 0 then []
    else if es[0].Some? then [es[0].value] + Present(es[1..])
    else
      assert forall i :: 1 <= i < |es| ==> es[i] == es[1..][i - 1];
      Present(es[1..])
  }

  /** The first error of each failing field, in the serializer's field order. */
  function FieldErrors(name: string, faction: Option<string>, race: Option<string>, cls: Option<string>): (r: seq<string>)
    ensures |r| <= 4
    ensures r == [] <==> (NameError(name).None? && ChoiceError(faction, FactionChoices).None?
      && ChoiceError(race, RaceChoices).None? && ChoiceError(cls, ClassChoices).None?)
  {
    var es := [NameError(name), ChoiceError(faction, FactionChoices), ChoiceError(race, RaceChoices),
               ChoiceError(cls, ClassChoices)];
    assert es[0] == NameError(name) && es[1] == ChoiceError(faction, FactionChoices);
    assert es[2] == ChoiceError(race, RaceChoices) && es[3] == ChoiceError(cls, ClassChoices);
    Present(es)
  }

  /** Each message followed by a space. */
  function Spaced(messages: seq<string>): string {
    if |messages| == 0 then "" else messages[0] + " " + Spaced(messages[1..])
  }

  /** The combined error text: each message and a space, concatenated and stripped. */
  function ErrorText(messages: seq<string>): string {
    PyStrip(Spaced(messages))
  }

  /** A single message with no surrounding whitespace comes back unchanged. */
  lemma ErrorTextSingle(m: string)
    requires m != [] && !IsPySpace(m[0]) && !IsPySpace(m[|m| - 1])
    ensures ErrorText([m]) == m
  {
    var s := Spaced([m]);
    assert [m][1..] == [];
    assert s == m + " " + Spaced([]);
    assert m + " " + "" == m + " ";
    assert SkipForward(s, IsPySpace, 0) == 0;
    assert SkipBackward(s, IsPySpace, 0, |s| - 1) == |s| - 1;
    assert SkipBackward(s, IsPySpace, 0, |s|) == |s| - 1;
    assert s[0..|s| - 1] == m;
  }

  /** The name a creation request asks for: the given one, or "{username}'s Hero". */
  function RequestedName(req: CreationRequest, u: User): string {
    req.name.GetOr(u.username + "'s Hero")
  }

  /** The welcome message for a newly created character. */
  function WelcomeMessage(name: string): string {
    "Welcome, " + name + "! Your legend begins..."
  }

  /**
    Character creation. The checks run in a fixed order: authentication
    (401, or 500 when the token lookup raises), then the rest as
    `CreateAs` states. Every outcome but 201 leaves the database unchanged.
  */
  function CreateCharacter(s: Store, req: CreationRequest, now: int): (h: Handled)
    ensures h.mail.None? && h.outcome.Replied?
    ensures h.outcome.reply.status in {201, 400, 401, 500}
    ensures h.outcome.reply.success <==> h.outcome.reply.status == 201
    ensures h.outcome.reply.status != 201 ==> h.store == s
    ensures h.outcome.reply.status == 401 <==> UserFromToken(s, req.authorization, now).Anonymous?
    ensures h.outcome.reply.status == 500 <==> UserFromToken(s, req.authorization, now).AuthFailure?
    ensures h.outcome.reply.status == 401 ==> h.outcome.reply.message == AuthMessage
    ensures UserFromToken(s, req.authorization, now).Authenticated? ==>
      h == CreateAs(s, req, UserFromToken(s, req.authorization, now).user, now)
  {
    match UserFromToken(s, req.authorization, now)
    case AuthFailure => Handled(Replied(Plain(500, false, CreateErrorMessage)), s, None)
    case Anonymous => Handled(Replied(Plain(401, false, AuthMessage)), s, None)
    case Authenticated(u) => CreateAs(s, req, u, now)
  }

  /**
    Character creation for an authenticated user `u`: an existing active
    character is refused (400, reported back); then the serializer's field
    checks (400) and the race/class compatibility check (400) run; only
    then is a new active character stored (201) with the requested or
    default name and the level, experience and gold defaults, whatever the
    request says about those read-only fields.
  */
  function CreateAs(s: Store, req: CreationRequest, u: User, now: int): (h: Handled)
    ensures h.mail.None? && h.outcome.Replied?
    ensures h.outcome.reply.status in {201, 400}
    ensures h.outcome.reply.success <==> h.outcome.reply.status == 201
    ensures h.outcome.reply.status != 201 ==> h.store == s
    ensures ActiveCharacter(s.characters, u.id).Some? ==>
      h.outcome.reply == Reply(400, false, ExistingMessage, ActiveCharacter(s.characters, u.id), None, None)
    ensures h.outcome.reply.status == 201 ==> (h.outcome.reply.character.Some? &&
      var c := h.outcome.reply.character.value;
      && h.store == s.(characters := s.characters + [c], nextCharacterId := s.nextCharacterId + 1)
      && ActiveCharacter(s.characters, u.id).None?
      && c.id == s.nextCharacterId && c.userId == u.id && c.isActive && c.createdAt == now
      && c.name == PyStrip(RequestedName(req, u))
      && c.level == 1 && c.experience == 0 && c.gold == 0
      && Some(c.faction) == req.faction && c.faction in FactionChoices
      && Some(c.race) == req.race && c.race in RaceChoices
      && Some(c.characterClass) == req.characterClass && c.characterClass in AllowedClasses(c.race)
      && h.outcome.reply.message == WelcomeMessage(c.name))
    ensures h.outcome.reply.status == 201 ==>
      FieldErrors(RequestedName(req, u), req.faction, req.race, req.characterClass) == []
    ensures (ActiveCharacter(s.characters, u.id).None?
      && FieldErrors(RequestedName(req, u), req.faction, req.race, req.characterClass) != []) ==>
      h == Handled(Replied(Plain(400, false,
        ErrorText(FieldErrors(RequestedName(req, u), req.faction, req.race, req.characterClass)))), s, None)
    ensures (ActiveCharacter(s.characters, u.id).None?
      && FieldErrors(RequestedName(req, u), req.faction, req.race, req.characterClass) == []) ==>
      (h.outcome.reply.status == 201 <==> req.characterClass.value in AllowedClasses(req.race.value))
  {
    match ActiveCharacter(s.characters, u.id)
    case Some(existing) =>
      Handled(Replied(Reply(400, false, ExistingMessage, Some(existing), None, None)), s, None)
    case None =>
      var name := RequestedName(req, u);
      var errors := FieldErrors(name, req.faction, req.race, req.characterClass);
      if errors != [] then Handled(Replied(Plain(400, false, ErrorText(errors))), s, None)
      else
        var data := CharacterData(u.id, PyStrip(name), req.faction, req.race, req.characterClass, true);
        match Validate(data)
        case Failure(m) => Handled(Replied(Plain(400, false, ErrorText([m]))), s, None)
        case Success(d) =>
          var c := DefaultCharacter(s.nextCharacterId, u.id, d.faction.value, d.race.value,
                                    d.characterClass.value, now).(name := d.name);
          var s' := s.(characters := s.characters + [c], nextCharacterId := s.nextCharacterId + 1);
          Handled(Replied(Reply(201, true, WelcomeMessage(c.name), Some(c), None, None)), s', None)
  }

  /**
    Retrieval of the caller's active character: 401 without a valid token,
    404 without an active character, 200 with it otherwise.
  */
  function GetCharacter(s: Store, authorization: Option<string>, now: int): (r: Reply)
    ensures r.status in {200, 401, 404, 500}
    ensures r.success <==> r.status == 200
    ensures r.status == 401 <==> UserFromToken(s, authorization, now).Anonymous?
    ensures r.status == 500 <==> UserFromToken(s, authorization, now).AuthFailure?
    ensures r.status == 404 <==> (UserFromToken(s, authorization, now).Authenticated?
      && ActiveCharacter(s.characters, UserFromToken(s, authorization, now).user.id).None?)
    ensures r.status == 200 ==> (r.character.Some? && r.character.value in s.characters
      && r.character.value.isActive && r.character.value.userId == UserFromToken(s, authorization, now).user.id)
  {
    match UserFromToken(s, authorization, now)
    case AuthFailure => Plain(500, false, RetrieveErrorMessage)
    case Anonymous => Plain(401, false, AuthMessage)
    case Authenticated(u) =>
      match ActiveCharacter(s.characters, u.id)
      case None => Plain(404, false, NotFoundMessage)
      case Some(c) => Reply(200, true, "", Some(c), None, None)
  }

  // ---------------------------------------------------------------------------
  // Password reset, login and forgotten password
  // ---------------------------------------------------------------------------

  /** A password-reset request body; `None` is an absent key. */
  datatype ResetRequest = ResetRequest(id: Option<int>, token: Option<string>, password: Option<string>)

  const ExpiredMessage := "Password Reset Link has expired!"
  const InvalidLinkMessage := "Reset Password link is invalid!"
  const ResetDoneMessage := "Your password reset was successfully!"

  predicate Complete(req: ResetRequest) {
    req.id.Some? && req.token.Some? && req.password.Some?
  }

  /**
    Password reset. Only the user's newest token is consulted: its expiry is
    checked first, then whether it matches and is unused. On success the
    password is replaced and the token marked used; when no user row has the
    id, nothing is saved and the view returns `None`. A missing body key
    or a user without tokens raises.
  */
  function ResetPassword(s: Store, req: ResetRequest, now: int, hash: string -> string): (h: Handled)
    ensures h.mail.None?
    ensures !Complete(req) ==> h == Handled(Raised, s, None)
    ensures Complete(req) && NewestOf(s.tokens, req.id.value).None? ==> h == Handled(Raised, s, None)
    ensures Complete(req) && NewestOf(s.tokens, req.id.value).Some? ==>
      var k := s.tokens[NewestOf(s.tokens, req.id.value).value];
      && (k.expiresAt < now ==> h == Handled(Replied(Plain(200, false, ExpiredMessage)), s, None))
      && (k.expiresAt >= now && (req.token.value != k.token || k.isUsed) ==>
            h == Handled(Replied(Plain(200, false, InvalidLinkMessage)), s, None))
    ensures h.outcome.Replied? && h.outcome.reply.success ==>
      && Complete(req) && NewestOf(s.tokens, req.id.value).Some?
      && var i := NewestOf(s.tokens, req.id.value).value;
      && s.tokens[i].expiresAt >= now && s.tokens[i].token == req.token.value && !s.tokens[i].isUsed
      && h.store == s.(users := SetPassword(s.users, req.id.value, hash(req.password.value)),
                       tokens := MarkUsedAt(s.tokens, i))
      && h.outcome.reply == Plain(200, true, ResetDoneMessage)
    ensures h.outcome == NoReply ==> (h.store == s
      && forall j :: 0 <= j < |s.users| ==> s.users[j].id != req.id.value)
    ensures Complete(req) && NewestOf(s.tokens, req.id.value).Some? ==>
      var k := s.tokens[NewestOf(s.tokens, req.id.value).value];
      (k.expiresAt >= now && req.token.value == k.token && !k.isUsed) ==>
        && ((exists j :: 0 <= j < |s.users| && s.users[j].id == req.id.value) ==>
              h.outcome == Replied(Plain(200, true, ResetDoneMessage)))
        && ((forall j :: 0 <= j < |s.users| ==> s.users[j].id != req.id.value) ==>
              h == Handled(NoReply, s, None))
  {
    if !Complete(req) then Handled(Raised, s, None)
    else
      var id := req.id.value;
      match NewestOf(s.tokens, id)
      case None => Handled(Raised, s, None)
      case Some(i) =>
        var k := s.tokens[i];
        if k.expiresAt < now then Handled(Replied(Plain(200, false, ExpiredMessage)), s, None)
        else if req.token.value != k.token || k.isUsed then
          Handled(Replied(Plain(200, false, InvalidLinkMessage)), s, None)
        else
          var users' := SetPassword(s.users, id, hash(req.password.value));
          if |Filter(s.users, HasId(id))| > 0 then
            var f := Filter(s.users, HasId(id));
            assert f[0] in s.users && f[0].id == id;
            assert exists j :: 0 <= j < |s.users| && s.users[j] == f[0];
            Handled(Replied(Plain(200, true, ResetDoneMessage)), s.(users := users', tokens := MarkUsedAt(s.tokens, i)), None)
          else
            assert users' == s.users;
            Handled(NoReply, s, None)
  }

  /** What sha512(...).hexdigest() produces: 128 lower-case hexadecimal digits. */
  predicate IsHexDigest(d: string) {
    |d| == 128 && forall i :: 0 <= i < |d| ==> ('0' <= d[i] <= '9' || 'a' <= d[i] <= 'f')
  }

  /** A login request body; `None` is an absent key. */
  datatype LoginRequest = LoginRequest(email: Option<string>, password: Option<string>)

  const BadCredentialsMessage := "Invalid Login Credentials!"
  const LoggedInMessage := "You are now logged in!"

  /**
    Login. The user is looked up by email (a missing key or a missing user
    raises); a password whose hash differs is refused; otherwise a fresh
    unused token valid for seven days is stored and returned with the user.
  */
  function Login(s: Store, req: LoginRequest, now: int, hash: string -> string, digest: string): (h: Handled)
    requires IsHexDigest(digest)
    ensures h.mail.None?
    ensures h.outcome.Raised? <==> req.email.None? || req.password.None? || !Get(s.users, HasEmail(req.email.value)).Found?
    ensures !RepliedWith(h.outcome, 200, true) ==> h.store == s
    ensures RepliedWith(h.outcome, 200, false) ==> h.outcome.reply.message == BadCredentialsMessage
    ensures RepliedWith(h.outcome, 200, true) ==>
      && req.email.Some? && req.password.Some?
      && var u := Get(s.users, HasEmail(req.email.value)).value;
      && u.email == req.email.value && u.password == hash(req.password.value)
      && h.store == s.(tokens := s.tokens + [Token(s.nextTokenId, digest, now, now + LoginLifetime, u.id, false)],
                       nextTokenId := s.nextTokenId + 1)
      && h.outcome.reply.token == Some(digest)
      && h.outcome.reply.user == Some(UserInfo(u.id, u.username, u.email))
    ensures req.email.Some? && req.password.Some? && Get(s.users, HasEmail(req.email.value)).Found? ==>
      RepliedWith(h.outcome, 200, Get(s.users, HasEmail(req.email.value)).value.password == hash(req.password.value))
  {
    if req.email.None? || req.password.None? then Handled(Raised, s, None)
    else
      var hashed := hash(req.password.value);
      match Get(s.users, HasEmail(req.email.value))
      case NotFound => Handled(Raised, s, None)
      case Multiple => Handled(Raised, s, None)
      case Found(u) =>
        if u.password != hashed then Handled(Replied(Plain(200, false, BadCredentialsMessage)), s, None)
        else
          var k := Token(s.nextTokenId, digest, now, now + LoginLifetime, u.id, false);
          var s' := s.(tokens := s.tokens + [k], nextTokenId := s.nextTokenId + 1);
          Handled(Replied(Reply(200, true, LoggedInMessage, None, Some(digest), Some(UserInfo(u.id, u.username, u.email)))), s', None)
  }

  /** A forgotten-password request body. */
  datatype ForgotRequest = ForgotRequest(email: Option<string>)

  const ResetSentMessage := "A password reset link has been sent to your email."
  const ResetSubject := "Forgot Password Link"

  /** The reset page's address with the start of its query, "{site}/resetPassword?id=". */
  const ResetPath := SiteUrl + "/resetPassword?id="

  /** The link mailed for a reset: "{site}/resetPassword?id={id}&token={token}". */
  function ResetLink(id: int, token: string): string {
    ResetPath + IntToString(id) + "&token=" + token
  }

  /**
    Forgotten password. Any failure (missing key, unknown email, undelivered
    mail) is caught and the view returns `None`; a found user gets a
    fresh token valid for one day, created without an explicit used flag,
    and is mailed a link carrying their id and the token.
  */
  function ForgotPassword(s: Store, req: ForgotRequest, now: int, digest: string, delivered: bool): (h: Handled)
    requires IsHexDigest(digest)
    ensures h.outcome.Raised? == false
    ensures h.outcome.Replied? <==> req.email.Some? && Get(s.users, HasEmail(req.email.value)).Found? && delivered
    ensures h.outcome.Replied? ==> h.outcome.reply == Plain(200, true, ResetSentMessage)
    ensures (req.email.None? || !Get(s.users, HasEmail(req.email.value)).Found?) ==> h == Handled(NoReply, s, None)
    ensures req.email.Some? && Get(s.users, HasEmail(req.email.value)).Found? ==>
      var u := Get(s.users, HasEmail(req.email.value)).value;
      && h.store == s.(tokens := s.tokens + [NewToken(s.nextTokenId, digest, now, now + ResetLifetime, u.id)],
                       nextTokenId := s.nextTokenId + 1)
      && h.mail == (if delivered then Some(Mail(req.email.value, ResetSubject, ResetLink(u.id, digest))) else None)
  {
    if req.email.None? then Handled(NoReply, s, None)
    else
      match Get(s.users, HasEmail(req.email.value))
      case NotFound => Handled(NoReply, s, None)
      case Multiple => Handled(NoReply, s, None)
      case Found(u) =>
        var k := NewToken(s.nextTokenId, digest, now, now + ResetLifetime, u.id);
        var s' := s.(tokens := s.tokens + [k], nextTokenId := s.nextTokenId + 1);
        if delivered then
          Handled(Replied(Plain(200, true, ResetSentMessage)), s',
                  Some(Mail(req.email.value, ResetSubject, ResetLink(u.id, digest))))
        else Handled(NoReply, s', None)
  }
}
