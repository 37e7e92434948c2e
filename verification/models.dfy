/**
  The persisted entities (tokens, users, characters) and the character
  catalogue: the closed sets of factions, races and classes a character's
  fields may take.
*/
module Models {
  import opened Wrappers

  /** The two factions. */
  datatype Faction = Crusaders | Moors

  /** The six races. */
  datatype Race = Castilian | Aragonese | Leonese | Andalusian | Berber | Mashriqi

  /** The six character classes. */
  datatype Class = Knight | Arbalist | Skirmisher | BladeDancer | Alchemist | MysticPoet

  function FactionName(f: Faction): string {
    match f
    case Crusaders => "The Crusaders"
    case Moors => "The Moors"
  }

  function RaceName(r: Race): string {
    match r
    case Castilian => "Castilian"
    case Aragonese => "Aragonese"
    case Leonese => "Leonese"
    case Andalusian => "Andalusian"
    case Berber => "Berber"
    case Mashriqi => "Mashriqi"
  }

  function ClassName(c: Class): string {
    match c
    case Knight => "Knight"
    case Arbalist => "Arbalist"
    case Skirmisher => "Skirmisher"
    case BladeDancer => "Blade Dancer"
    case Alchemist => "Alchemist"
    case MysticPoet => "Mystic Poet"
  }

  /** The stored values of the faction, race and class choice lists, in declaration order. */
  const FactionChoices: seq<string> := ["The Crusaders", "The Moors"]
  const RaceChoices: seq<string> := ["Castilian", "Aragonese", "Leonese", "Andalusian", "Berber", "Mashriqi"]
  const ClassChoices: seq<string> := ["Knight", "Arbalist", "Skirmisher", "Blade Dancer", "Alchemist", "Mystic Poet"]

  /** The faction whose stored value is `s`, if any. */
  function ParseFaction(s: string): (r: Option<Faction>)
    ensures r.Some? <==> s in FactionChoices
    ensures r.Some? ==> FactionName(r.value) == s
  {
    if s == "The Crusaders" then Some(Crusaders)
    else if s == "The Moors" then Some(Moors)
    else None
  }

  /** The race whose stored value is `s`, if any. */
  function ParseRace(s: string): (r: Option<Race>)
    ensures r.Some? <==> s in RaceChoices
    ensures r.Some? ==> RaceName(r.value) == s
  {
    if s == "Castilian" then Some(Castilian)
    else if s == "Aragonese" then Some(Aragonese)
    else if s == "Leonese" then Some(Leonese)
    else if s == "Andalusian" then Some(Andalusian)
    else if s == "Berber" then Some(Berber)
    else if s == "Mashriqi" then Some(Mashriqi)
    else None
  }

  /** The class whose stored value is `s`, if any. */
  function ParseClass(s: string): (r: Option<Class>)
    ensures r.Some? <==> s in ClassChoices
    ensures r.Some? ==> ClassName(r.value) == s
  {
    if s == "Knight" then Some(Knight)
    else if s == "Arbalist" then Some(Arbalist)
    else if s == "Skirmisher" then Some(Skirmisher)
    else if s == "Blade Dancer" then Some(BladeDancer)
    else if s == "Alchemist" then Some(Alchemist)
    else if s == "Mystic Poet" then Some(MysticPoet)
    else None
  }

  /**
    The choice lists are exactly the names of the enumerations: every value
    has a distinct stored name, and parsing a name gives the value back.
  */
  lemma ChoicesAreTheEnumerations(f: Faction, r: Race, c: Class)
    ensures |FactionChoices| == 2 && |RaceChoices| == 6 && |ClassChoices| == 6
    ensures FactionName(f) in FactionChoices && ParseFaction(FactionName(f)) == Some(f)
    ensures RaceName(r) in RaceChoices && ParseRace(RaceName(r)) == Some(r)
    ensures ClassName(c) in ClassChoices && ParseClass(ClassName(c)) == Some(c)
  {
  }

  /** A login or password-reset token row. */
  datatype Token = Token(
    id: int,
    token: string,
    createdAt: int,
    expiresAt: int,
    userId: int,
    isUsed: bool)

  /** A token row created without an explicit used flag. */
  function NewToken(id: int, token: string, createdAt: int, expiresAt: int, userId: int): (t: Token)
    ensures !t.isUsed
    ensures t.token == token && t.userId == userId
    ensures t.createdAt == createdAt && t.expiresAt == expiresAt
  {
    Token(id, token, createdAt, expiresAt, userId, false)
  }

  /** A user row; `password` holds the hashed password. */
  datatype User = User(id: int, username: string, email: string, password: string)

  /** A user's string form is its username. */
  function UserString(u: User): string {
    u.username
  }

  /** A character row. Choice fields are stored as their text values. */
  datatype Character = Character(
    id: int,
    userId: int,
    name: string,
    faction: string,
    race: string,
    characterClass: string,
    level: int,
    experience: int,
    gold: int,
    createdAt: int,
    isActive: bool)

  const DefaultName := "Unnamed Hero"

  /** A character row with every defaulted field left at its default. */
  function DefaultCharacter(id: int, userId: int, faction: string, race: string, characterClass: string, createdAt: int): (c: Character)
    ensures c.name == "Unnamed Hero"
    ensures c.level == 1 && c.experience == 0 && c.gold == 0
    ensures c.isActive
    ensures c.id == id && c.createdAt == createdAt
    ensures c.userId == userId && c.faction == faction && c.race == race && c.characterClass == characterClass
  {
    Character(id, userId, DefaultName, faction, race, characterClass, 1, 0, 0, createdAt, true)
  }

  /** A character's string form, "{name} ({race} {class})". */
  function CharacterString(c: Character): string {
    c.name + " (" + c.race + " " + c.characterClass + ")"
  }

  /** The string form starts with the name and ends with the parenthesised race and class. */
  lemma CharacterStringShape(c: Character)
    ensures var s := CharacterString(c);
      && |s| == |c.name| + |c.race| + |c.characterClass| + 4
      && s[..|c.name|] == c.name
      && s[|s| - 1] == ')'
      && s[|c.name|..|c.name| + 2 + |c.race|] == " (" + c.race
      && s[|c.name| + 2 + |c.race|..|s| - 1] == " " + c.characterClass
  {
  }
}
