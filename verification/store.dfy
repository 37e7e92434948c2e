/**
  The database as an immutable value: the user, token and character tables
  in primary-key order, the next free primary keys, the invariants the
  schema promises, and the queries the request handlers run.
*/
module Store {
  import opened Wrappers
  import opened Models
  import opened Lists

  datatype Store = Store(
    users: seq<User>,
    tokens: seq<Token>,
    characters: seq<Character>,
    nextTokenId: int,
    nextCharacterId: int)

  /** Primary keys are unique. */
  ghost predicate UniqueUserIds(users: seq<User>) {
    forall i, j :: 0 <= i < j < |users| ==> users[i].id != users[j].id
  }

  /** No two users share an email. */
  ghost predicate UniqueEmails(users: seq<User>) {
    forall i, j :: 0 <= i < j < |users| ==> users[i].email != users[j].email
  }

  /** Token primary keys are unique and below the next free key. */
  ghost predicate TokenKeys(tokens: seq<Token>, next: int) {
    && (forall i :: 0 <= i < |tokens| ==> tokens[i].id < next)
    && (forall i, j :: 0 <= i < j < |tokens| ==> tokens[i].id != tokens[j].id)
  }

  /** Character primary keys are unique and below the next free key. */
  ghost predicate CharacterKeys(characters: seq<Character>, next: int) {
    && (forall i :: 0 <= i < |characters| ==> characters[i].id < next)
    && (forall i, j :: 0 <= i < j < |characters| ==> characters[i].id != characters[j].id)
  }

  /** At most one character per user is active. */
  ghost predicate OneActivePerUser(characters: seq<Character>) {
    forall i, j :: 0 <= i < j < |characters| && characters[i].isActive && characters[j].isActive
      ==> characters[i].userId != characters[j].userId
  }

  /** Everything the schema guarantees about a database state. */
  ghost predicate Valid(s: Store) {
    && UniqueUserIds(s.users)
    && UniqueEmails(s.users)
    && TokenKeys(s.tokens, s.nextTokenId)
    && CharacterKeys(s.characters, s.nextCharacterId)
    && OneActivePerUser(s.characters)
  }

  /** The row predicates the handlers filter by. */
  function HasId(id: int): User -> bool {
    (u: User) => u.id == id
  }

  function HasEmail(email: string): User -> bool {
    (u: User) => u.email == email
  }

  /** A token row with this exact string that expires strictly after `now` and is unused. */
  predicate IsLive(k: Token, token: string, now: int) {
    k.token == token && k.expiresAt > now && !k.isUsed
  }

  function Live(token: string, now: int): Token -> bool {
    (k: Token) => IsLive(k, token, now)
  }

  function ActiveOf(userId: int): Character -> bool {
    (c: Character) => c.userId == userId && c.isActive
  }

  /** The user's active character, the first one in key order (`filter(...).first()`). */
  function ActiveCharacter(characters: seq<Character>, userId: int): (r: Option<Character>)
    ensures r.None? <==> forall i :: 0 <= i < |characters| ==> !(characters[i].userId == userId && characters[i].isActive)
    ensures r.Some? ==> r.value in characters && r.value.userId == userId && r.value.isActive
  {
    First(characters, ActiveOf(userId))
  }

  /** With one active character per user, the active character found is the only one. */
  lemma ActiveCharacterUnique(characters: seq<Character>, userId: int, k: nat)
    requires OneActivePerUser(characters)
    requires k < |characters| && characters[k].userId == userId && characters[k].isActive
    ensures ActiveCharacter(characters, userId) == Some(characters[k])
  {
    var r := ActiveCharacter(characters, userId);
    var i :| 0 <= i < |characters| && characters[i] == r.value;
  }

  /**
    The newest token of a user (`filter(user_id=...).order_by("-created_at")[0]`),
    as a position in the table: the user's token with the greatest creation
    time, the earliest in key order among equals.
  */
  function NewestOf(tokens: seq<Token>, userId: int): (r: Option<nat>)
    ensures r.None? <==> forall i :: 0 <= i < |tokens| ==> tokens[i].userId != userId
    ensures r.Some? ==> r.value < |tokens| && tokens[r.value].userId == userId
    ensures r.Some? ==> forall i :: (0 <= i < |tokens| && tokens[i].userId == userId
      ==> tokens[i].createdAt <= tokens[r.value].createdAt)
    ensures r.Some? ==> forall i :: (0 <= i < r.value && tokens[i].userId == userId
      ==> tokens[i].createdAt < tokens[r.value].createdAt)
  {
    if |tokens| == 0 then None
    else
      var last := |tokens| - 1;
      var rest := NewestOf(tokens[..last], userId);
      if tokens[last].userId != userId then rest
      else match rest
        case None => Some(last)
        case Some(j) => if tokens[last].createdAt > tokens[j].createdAt then Some(last) else Some(j)
  }

  /** The newest token depends only on the owners and creation times of the rows. */
  lemma {:induction false} NewestOfFrame(tokens: seq<Token>, tokens': seq<Token>, userId: int)
    requires |tokens'| == |tokens|
    requires forall i :: 0 <= i < |tokens| ==>
      tokens'[i].userId == tokens[i].userId && tokens'[i].createdAt == tokens[i].createdAt
    ensures NewestOf(tokens', userId) == NewestOf(tokens, userId)
  {
    if |tokens| > 0 {
      var last := |tokens| - 1;
      NewestOfFrame(tokens[..last], tokens'[..last], userId);
    }
  }

  /** A row appended for a user after all of that user's earlier rows becomes the user's newest token. */
  lemma NewestOfAppend(tokens: seq<Token>, k: Token)
    requires forall i :: 0 <= i < |tokens| && tokens[i].userId == k.userId ==> tokens[i].createdAt < k.createdAt
    ensures NewestOf(tokens + [k], k.userId) == Some(|tokens|)
  {
    var t := tokens + [k];
    assert t[|tokens|] == k;
    assert forall i :: 0 <= i < |tokens| ==> t[i] == tokens[i];
  }

  /** The table with the token at position `i` marked used. */
  function MarkUsedAt(tokens: seq<Token>, i: nat): (r: seq<Token>)
    requires i < |tokens|
    ensures |r| == |tokens| && r[i].isUsed
    ensures r[i] == tokens[i].(isUsed := true)
    ensures forall j :: 0 <= j < |tokens| && j != i ==> r[j] == tokens[j]
  {
    tokens[i := tokens[i].(isUsed := true)]
  }

  /** The user table with every row of key `id` given password `hashed` (`filter(id=...).update(...)`). */
  function SetPassword(users: seq<User>, id: int, hashed: string): (r: seq<User>)
    ensures |r| == |users|
    ensures forall i :: 0 <= i < |users| ==>
      r[i] == (if users[i].id == id then users[i].(password := hashed) else users[i])
  {
    MapWhere(users, HasId(id), (u: User) => u.(password := hashed))
  }
}
