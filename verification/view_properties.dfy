/**
  Properties that relate several handler calls: the schema invariants every
  handler keeps, a created character being the one retrieved afterwards, a
  login token authenticating its owner, a reset token working only once, and
  the forgotten-password flow ending in a successful reset.
*/
module ViewProperties {
  import opened Wrappers
  import opened Text
  import opened Models
  import opened Lists
  import opened Serializers
  import opened Store
  import opened Views

  // ---------------------------------------------------------------------------
  // Invariants
  // ---------------------------------------------------------------------------

  /** Appending a character that is the only active one of its user keeps one active character per user. */
  lemma AppendKeepsOneActive(cs: seq<Character>, c: Character)
    requires OneActivePerUser(cs)
    requires forall i :: 0 <= i < |cs| ==> !(cs[i].userId == c.userId && cs[i].isActive)
    ensures OneActivePerUser(cs + [c])
  {
    var t := cs + [c];
    forall i, j | 0 <= i < j < |t| && t[i].isActive && t[j].isActive
      ensures t[i].userId != t[j].userId
    {
      assert t[i] == cs[i];
      if j < |cs| {
        assert t[j] == cs[j];
      }
    }
  }

  /** Character creation keeps every schema invariant. */
  lemma CreatePreservesValid(s: Store, req: CreationRequest, now: int)
    requires Valid(s)
    ensures Valid(CreateCharacter(s, req, now).store)
  {
    var h := CreateCharacter(s, req, now);
    if h.outcome.reply.status == 201 {
      var u := UserFromToken(s, req.authorization, now).user;
      var c := h.outcome.reply.character.value;
      assert h == CreateAs(s, req, u, now);
      AppendKeepsOneActive(s.characters, c);
    }
  }

  /** A password reset keeps every schema invariant: it changes only a password and a used flag. */
  lemma ResetPreservesValid(s: Store, req: ResetRequest, now: int, hash: string -> string)
    requires Valid(s)
    ensures Valid(ResetPassword(s, req, now, hash).store)
  {
    var h := ResetPassword(s, req, now, hash);
    if h.outcome.Replied? && h.outcome.reply.success {
      var us := SetPassword(s.users, req.id.value, hash(req.password.value));
      assert forall i :: 0 <= i < |us| ==> us[i].id == s.users[i].id && us[i].email == s.users[i].email;
      var i := NewestOf(s.tokens, req.id.value).value;
      var ks := MarkUsedAt(s.tokens, i);
      assert forall j :: 0 <= j < |ks| ==> ks[j].id == s.tokens[j].id;
    }
  }

  /** A login keeps every schema invariant: the new token takes the next free key. */
  lemma LoginPreservesValid(s: Store, req: LoginRequest, now: int, hash: string -> string, digest: string)
    requires Valid(s) && IsHexDigest(digest)
    ensures Valid(Login(s, req, now, hash, digest).store)
  {
  }

  /** A forgotten-password request keeps every schema invariant: the new token takes the next free key. */
  lemma ForgotPreservesValid(s: Store, req: ForgotRequest, now: int, digest: string, delivered: bool)
    requires Valid(s) && IsHexDigest(digest)
    ensures Valid(ForgotPassword(s, req, now, digest, delivered).store)
  {
  }

  // ---------------------------------------------------------------------------
  // Character creation and retrieval
  // ---------------------------------------------------------------------------

  /** Authentication reads only the token and user tables. */
  lemma AuthFrame(s: Store, s': Store, header: Option<string>, now: int)
    requires s'.tokens == s.tokens && s'.users == s.users
    ensures UserFromToken(s', header, now) == UserFromToken(s, header, now)
  {
  }

  /** After a successful creation, retrieval with the same header returns the new character. */
  lemma CreateThenGet(s: Store, req: CreationRequest, now: int)
    requires CreateCharacter(s, req, now).outcome.reply.status == 201
    ensures var h := CreateCharacter(s, req, now);
      GetCharacter(h.store, req.authorization, now) == Reply(200, true, "", h.outcome.reply.character, None, None)
  {
    var h := CreateCharacter(s, req, now);
    var u := UserFromToken(s, req.authorization, now).user;
    assert h == CreateAs(s, req, u, now);
    var c := h.outcome.reply.character.value;
    AuthFrame(s, h.store, req.authorization, now);
    FirstAppend(s.characters, c, ActiveOf(u.id));
  }

  /** After a successful creation, a second creation by the same user is refused and reports the first character. */
  lemma CreateTwiceRefused(s: Store, req: CreationRequest, req': CreationRequest, now: int)
    requires CreateCharacter(s, req, now).outcome.reply.status == 201
    requires req'.authorization == req.authorization
    ensures var h := CreateCharacter(s, req, now);
      var h' := CreateCharacter(h.store, req', now);
      && h'.outcome.reply == Reply(400, false, ExistingMessage, h.outcome.reply.character, None, None)
      && h'.store == h.store
  {
    var h := CreateCharacter(s, req, now);
    var u := UserFromToken(s, req.authorization, now).user;
    assert h == CreateAs(s, req, u, now);
    var c := h.outcome.reply.character.value;
    AuthFrame(s, h.store, req.authorization, now);
    FirstAppend(s.characters, c, ActiveOf(u.id));
  }

  /** The read-only fields of a creation request make no difference to the outcome. */
  lemma CreationIgnoresReadOnly(s: Store, req: CreationRequest, req': CreationRequest, now: int)
    requires req' == req.(level := req'.level, experience := req'.experience, gold := req'.gold)
    ensures CreateCharacter(s, req', now) == CreateCharacter(s, req, now)
  {
    var a := UserFromToken(s, req.authorization, now);
    if a.Authenticated? {
      assert RequestedName(req', a.user) == RequestedName(req, a.user);
    }
  }

  /** Every race name starts, and every class name ends, with a letter. */
  lemma CatalogueNamesUnpadded(r: Race, c: Class)
    ensures |RaceName(r)| >= 1 && !IsPySpace(RaceName(r)[0])
    ensures |ClassName(c)| >= 1 && !IsPySpace(ClassName(c)[|ClassName(c)| - 1])
  {
  }

  /** The rejection message for a known race neither starts nor ends with whitespace. */
  lemma RejectionMessageUnpadded(race: string, cls: string)
    requires race in RaceChoices
    ensures var m := RejectionMessage(race, cls);
      m != [] && !IsPySpace(m[0]) && !IsPySpace(m[|m| - 1])
  {
    var rc := ParseRace(race).value;
    var row := CompatibleClasses(rc);
    var allowed := AllowedClasses(race);
    CatalogueNamesUnpadded(rc, row[|row| - 1]);
    assert allowed[|allowed| - 1] == ClassName(row[|row| - 1]);
    JoinEndsWithLast(allowed, ", ");
    var m := RejectionMessage(race, cls);
    var tail := Join(allowed, ", ");
    assert m[0] == m[..|race|][0];
    assert m[|m| - 1] == m[|m| - |tail|..][|tail| - 1];
  }

  /**
    A well-formed request whose class the race does not allow is refused
    with exactly the compatibility check's message: stripping the combined
    error text leaves the single message intact.
  */
  lemma CreationRejectionMessage(s: Store, req: CreationRequest, u: User, now: int)
    requires ActiveCharacter(s.characters, u.id).None?
    requires FieldErrors(RequestedName(req, u), req.faction, req.race, req.characterClass) == []
    requires req.characterClass.value !in AllowedClasses(req.race.value)
    ensures CreateAs(s, req, u, now).outcome.reply
      == Plain(400, false, RejectionMessage(req.race.value, req.characterClass.value))
  {
    RejectionMessageUnpadded(req.race.value, req.characterClass.value);
    ErrorTextSingle(RejectionMessage(req.race.value, req.characterClass.value));
  }

  /**
    A name that passes the blank and length checks but holds a NUL
    character is refused with exactly the null-character message, when the
    choice fields are all valid.
  */
  lemma NullCharacterRefused(s: Store, req: CreationRequest, u: User, now: int)
    requires ActiveCharacter(s.characters, u.id).None?
    requires var n := PyStrip(RequestedName(req, u)); n != "" && |n| <= 255 && '\U{0}' in n
    requires ChoiceError(req.faction, FactionChoices).None? && ChoiceError(req.race, RaceChoices).None?
    requires ChoiceError(req.characterClass, ClassChoices).None?
    ensures CreateAs(s, req, u, now) == Handled(Replied(Plain(400, false, NullCharMessage)), s, None)
  {
    var name := RequestedName(req, u);
    var es := [NameError(name), ChoiceError(req.faction, FactionChoices), ChoiceError(req.race, RaceChoices),
               ChoiceError(req.characterClass, ClassChoices)];
    assert es == [Some(NullCharMessage), None, None, None];
    assert es[1..][1..][1..][1..] == [];
    assert FieldErrors(name, req.faction, req.race, req.characterClass) == [NullCharMessage];
    ErrorTextSingle(NullCharMessage);
  }

  // ---------------------------------------------------------------------------
  // Login, reset and forgotten password
  // ---------------------------------------------------------------------------

  /** A hexadecimal digest has no space in it. */
  lemma HexDigestHasNoSpace(d: string)
    requires IsHexDigest(d)
    ensures ' ' !in d
  {
    assert forall i :: 0 <= i < |d| ==> d[i] != ' ';
  }

  /** With unique user ids, a user's own id finds exactly that user. */
  lemma GetById(users: seq<User>, u: User)
    requires UniqueUserIds(users) && u in users
    ensures Get(users, HasId(u.id)) == Found(u)
  {
    var k :| 0 <= k < |users| && users[k] == u;
    FilterSingleton(users, HasId(u.id), k);
  }

  /**
    The token a login returns authenticates its user, when sent as
    "Bearer {token}", at any time before it expires seven days later
    (given that no existing row carries the same digest).
  */
  lemma LoginThenAuthenticate(s: Store, req: LoginRequest, now: int, hash: string -> string, digest: string, later: int)
    requires UniqueUserIds(s.users) && IsHexDigest(digest)
    requires forall i :: 0 <= i < |s.tokens| ==> s.tokens[i].token != digest
    requires RepliedWith(Login(s, req, now, hash, digest).outcome, 200, true)
    requires later < now + LoginLifetime
    ensures UserFromToken(Login(s, req, now, hash, digest).store, Some("Bearer " + digest), later)
      == Authenticated(Get(s.users, HasEmail(req.email.value)).value)
  {
    var h := Login(s, req, now, hash, digest);
    var u := Get(s.users, HasEmail(req.email.value)).value;
    var k := Token(s.nextTokenId, digest, now, now + LoginLifetime, u.id, false);
    HexDigestHasNoSpace(digest);
    BearerTokenOf(digest);
    var live := Live(digest, later);
    FilterNone(s.tokens, live);
    FilterAppend(s.tokens, k, live);
    assert h.store.tokens == s.tokens + [k];
    assert Get(h.store.tokens, live) == Found(k);
    GetById(s.users, u);
  }

  /** The login token stops authenticating once seven days have passed. */
  lemma LoginTokenExpires(s: Store, req: LoginRequest, now: int, hash: string -> string, digest: string, later: int)
    requires IsHexDigest(digest)
    requires forall i :: 0 <= i < |s.tokens| ==> s.tokens[i].token != digest
    requires RepliedWith(Login(s, req, now, hash, digest).outcome, 200, true)
    requires later >= now + LoginLifetime
    ensures UserFromToken(Login(s, req, now, hash, digest).store, Some("Bearer " + digest), later) == Anonymous
  {
    var h := Login(s, req, now, hash, digest);
    HexDigestHasNoSpace(digest);
    BearerTokenOf(digest);
    assert h.store.tokens[|s.tokens|].expiresAt == now + LoginLifetime;
    NoLiveTokenNoUser(h.store, "Bearer " + digest, later);
  }

  /** A successful reset cannot be repeated: the same request afterwards is refused and changes nothing. */
  lemma ResetOnce(s: Store, req: ResetRequest, now: int, later: int, hash: string -> string)
    requires var h := ResetPassword(s, req, now, hash); h.outcome.Replied? && h.outcome.reply.success
    ensures var h := ResetPassword(s, req, now, hash);
      var h' := ResetPassword(h.store, req, later, hash);
      && h'.outcome.Replied? && !h'.outcome.reply.success
      && h'.store == h.store
  {
    var h := ResetPassword(s, req, now, hash);
    var id := req.id.value;
    var i := NewestOf(s.tokens, id).value;
    var ks := MarkUsedAt(s.tokens, i);
    assert h.store.tokens == ks;
    NewestOfFrame(s.tokens, ks, id);
    assert ks[i].isUsed;
  }

  /**
    The forgotten-password flow end to end: the user found by email can
    reset their password with the mailed id and token any time within a
    day, provided their earlier tokens are older than the new one.
  */
  lemma ForgotThenReset(s: Store, email: string, now: int, digest: string, delivered: bool,
                        later: int, password: string, hash: string -> string)
    requires IsHexDigest(digest)
    requires Get(s.users, HasEmail(email)).Found?
    requires forall i :: (0 <= i < |s.tokens| && s.tokens[i].userId == Get(s.users, HasEmail(email)).value.id
      ==> s.tokens[i].createdAt < now)
    requires later <= now + ResetLifetime
    ensures var u := Get(s.users, HasEmail(email)).value;
      var h := ForgotPassword(s, ForgotRequest(Some(email)), now, digest, delivered);
      var h' := ResetPassword(h.store, ResetRequest(Some(u.id), Some(digest), Some(password)), later, hash);
      && h'.outcome == Replied(Plain(200, true, ResetDoneMessage))
      && h'.store.users == SetPassword(s.users, u.id, hash(password))
  {
    var u := Get(s.users, HasEmail(email)).value;
    var h := ForgotPassword(s, ForgotRequest(Some(email)), now, digest, delivered);
    var k := NewToken(s.nextTokenId, digest, now, now + ResetLifetime, u.id);
    assert h.store.tokens == s.tokens + [k];
    NewestOfAppend(s.tokens, k);
    var j :| 0 <= j < |s.users| && s.users[j] == u;
    assert HasId(u.id)(s.users[j]);
    var s' := h.store;
    assert s'.users == s.users;
    assert NewestOf(s'.tokens, u.id) == Some(|s.tokens|);
    assert s'.tokens[|s.tokens|] == k;
    assert |Filter(s'.users, HasId(u.id))| > 0;
  }

  /** Two texts split at their first separator are equal only if both halves are. */
  lemma SplitAtSeparator(a: string, b: string, a': string, b': string, sep: char)
    requires sep !in a && sep !in a'
    requires a + [sep] + b == a' + [sep] + b'
    ensures a == a' && b == b'
  {
    FieldsConcat(a, b, sep);
    FieldsConcat(a', b', sep);
    assert ([a] + Fields(b, sep))[0] == a;
    assert ([a'] + Fields(b', sep))[0] == a';
    assert b == (a + [sep] + b)[|a| + 1..];
    assert b' == (a' + [sep] + b')[|a'| + 1..];
  }

  /** The reset link is the id part, an ampersand, and the token part. */
  lemma ResetLinkShape(id: int, token: string)
    ensures ResetLink(id, token) == (ResetPath + IntToString(id)) + ['&'] + ("token=" + token)
    ensures '&' !in ResetPath + IntToString(id)
  {
    assert "&token=" == ['&'] + "token=";
    var a := ResetPath + IntToString(id);
    assert forall i :: |ResetPath| <= i < |a| ==> a[i] == IntToString(id)[i - |ResetPath|];
  }

  /** The reset link determines the id and the token it carries. */
  lemma ResetLinkInjective(id: int, token: string, id': int, token': string)
    requires ResetLink(id, token) == ResetLink(id', token')
    ensures id == id' && token == token'
  {
    ResetLinkShape(id, token);
    ResetLinkShape(id', token');
    SplitAtSeparator(ResetPath + IntToString(id), "token=" + token,
                     ResetPath + IntToString(id'), "token=" + token', '&');
    assert IntToString(id) == (ResetPath + IntToString(id))[|ResetPath|..];
    assert IntToString(id') == (ResetPath + IntToString(id'))[|ResetPath|..];
    IntToStringInjective(id, id');
    assert token == ("token=" + token)[6..];
    assert token' == ("token=" + token')[6..];
  }
}
