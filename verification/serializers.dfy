/**
  The character serializer: which fields a client may write, the field-level
  checks that run first, and the race/class compatibility check that runs
  after them.
*/
module Serializers {
  import opened Wrappers
  import opened Text
  import opened Models
  import Lists

  /** The serializer's fields, in declaration order, and the read-only ones. */
  const CharacterFields: seq<string> := ["id", "user", "name", "faction", "race", "character_class",
    "level", "experience", "gold", "created_at", "is_active"]
  const ReadOnlyFields: set<string> := {"id", "created_at", "level", "experience", "gold"}

  /** The fields a client may set through the serializer. */
  function WritableFields(): (w: seq<string>)
    ensures forall i :: 0 <= i < |w| ==> w[i] in CharacterFields && w[i] !in ReadOnlyFields
    ensures forall i :: 0 <= i < |CharacterFields| && CharacterFields[i] !in ReadOnlyFields ==> CharacterFields[i] in w
  {
    Lists.Filter(CharacterFields, (f: string) => f !in ReadOnlyFields)
  }

  /**
    The race/class compatibility table: each race's allowed classes, in the
    order the table lists them. The table's keys are exactly the race choices.
  */
  function CompatibleClasses(r: Race): seq<Class> {
    match r
    case Castilian => [Knight, Arbalist]
    case Aragonese => [Knight, Arbalist, Skirmisher, Alchemist]
    case Leonese => [Knight, Arbalist, MysticPoet]
    case Andalusian => [Skirmisher, BladeDancer, Alchemist, MysticPoet]
    case Berber => [Arbalist, Skirmisher, BladeDancer]
    case Mashriqi => [BladeDancer, Alchemist, MysticPoet]
  }

  /** The stored names of a list of classes, in the same order. */
  function ClassNames(cs: seq<Class>): (r: seq<string>)
    ensures |r| == |cs|
    ensures forall i :: 0 <= i < |cs| ==> r[i] == ClassName(cs[i])
  {
    if |cs| == 0 then [] else [ClassName(cs[0])] + ClassNames(cs[1..])
  }

  /**
    The classes the table allows for the race named `race`, with an empty
    list for a name that is not a key (`table.get(race, [])`).
  */
  function AllowedClasses(race: string): (r: seq<string>)
    ensures race !in RaceChoices ==> r == []
  {
    match ParseRace(race)
    case None => []
    case Some(rc) => ClassNames(CompatibleClasses(rc))
  }

  /**
    The races a class is open to, read from the class's side. This is an
    independent statement of the same relation the table gives per race.
  */
  function RacesFor(c: Class): set<Race> {
    match c
    case Knight => {Castilian, Aragonese, Leonese}
    case Arbalist => {Castilian, Aragonese, Leonese, Berber}
    case Skirmisher => {Aragonese, Andalusian, Berber}
    case BladeDancer => {Andalusian, Berber, Mashriqi}
    case Alchemist => {Aragonese, Andalusian, Mashriqi}
    case MysticPoet => {Leonese, Andalusian, Mashriqi}
  }

  /** Distinct classes have distinct stored names. */
  lemma ClassNameInjective(a: Class, b: Class)
    ensures ClassName(a) == ClassName(b) ==> a == b
  {
    ChoicesAreTheEnumerations(Crusaders, Castilian, a);
    ChoicesAreTheEnumerations(Crusaders, Castilian, b);
  }

  /** A class's name is listed for a race exactly when the class is in its row. */
  lemma AllowedClassesOfRace(r: Race, c: Class)
    ensures ClassName(c) in AllowedClasses(RaceName(r)) <==> c in CompatibleClasses(r)
  {
    ChoicesAreTheEnumerations(Crusaders, r, c);
    var row := CompatibleClasses(r);
    var names := ClassNames(row);
    if ClassName(c) in names {
      var i :| 0 <= i < |names| && names[i] == ClassName(c);
      ClassNameInjective(row[i], c);
    }
  }

  /** Each row lists exactly the classes whose class-side race set contains that race. */
  lemma RowMatchesRacesFor(r: Race, c: Class)
    ensures c in CompatibleClasses(r) <==> r in RacesFor(c)
  {
    match r
    case Castilian =>
    case Aragonese =>
    case Leonese =>
    case Andalusian =>
    case Berber =>
    case Mashriqi =>
  }

  /** The table agrees with the class-side relation on every race and class. */
  lemma TableMatchesRacesFor(r: Race, c: Class)
    ensures ClassName(c) in AllowedClasses(RaceName(r)) <==> r in RacesFor(c)
  {
    AllowedClassesOfRace(r, c);
    RowMatchesRacesFor(r, c);
  }

  /** Castilians may be exactly Knights and Arbalists. */
  lemma CastilianClasses(c: Class)
    ensures ClassName(c) in AllowedClasses("Castilian") <==> c == Knight || c == Arbalist
  {
    AllowedClassesOfRace(Castilian, c);
  }

  /**
    The table is well formed: every race has a non-empty row, every listed
    class is a class choice, every class is allowed for at least one race,
    and the race choices are exactly the names of the races.
  */
  lemma CatalogueWellFormed()
    ensures forall r: Race :: |CompatibleClasses(r)| > 0
    ensures forall r: Race, i :: 0 <= i < |AllowedClasses(RaceName(r))| ==> AllowedClasses(RaceName(r))[i] in ClassChoices
    ensures forall c: Class :: RacesFor(c) != {}
    ensures forall s :: s in RaceChoices <==> exists r: Race :: RaceName(r) == s
  {
    forall r: Race, i | 0 <= i < |AllowedClasses(RaceName(r))|
      ensures AllowedClasses(RaceName(r))[i] in ClassChoices
    {
      ChoicesAreTheEnumerations(Crusaders, r, Knight);
      ChoicesAreTheEnumerations(Crusaders, r, CompatibleClasses(r)[i]);
    }
    forall s | s in RaceChoices
      ensures exists r: Race :: RaceName(r) == s
    {
      assert RaceName(ParseRace(s).value) == s;
    }
  }

  /** A race absent from the table allows no class at all. */
  lemma UnknownRaceAllowsNothing(race: string, cls: string)
    requires race !in RaceChoices
    ensures cls !in AllowedClasses(race)
  {
  }

  /** The data the compatibility check sees: the validated field values. */
  datatype CharacterData = CharacterData(
    userId: int,
    name: string,
    faction: Option<string>,
    race: Option<string>,
    characterClass: Option<string>,
    isActive: bool)

  /** Python truthiness of an optional string: present and non-empty. */
  predicate Truthy(s: Option<string>) {
    s.Some? && s.value != ""
  }

  const CannotBe := " cannot be a "
  const AvailableClasses := ". Available classes: "

  /** "{race} cannot be a {class}. Available classes: {allowed, joined by ', '}". */
  function RejectionMessage(race: string, cls: string): (m: string)
    ensures var tail := Join(AllowedClasses(race), ", ");
      && |m| == |race| + |CannotBe| + |cls| + |AvailableClasses| + |tail|
      && m[..|race|] == race
      && m[|race|..|race| + |CannotBe|] == CannotBe
      && m[|race| + |CannotBe|..|race| + |CannotBe| + |cls|] == cls
      && m[|race| + |CannotBe| + |cls|..|m| - |tail|] == AvailableClasses
      && m[|m| - |tail|..] == tail
  {
    var tail := Join(AllowedClasses(race), ", ");
    ConcatSlices(race, CannotBe, cls, AvailableClasses, tail);
    race + CannotBe + cls + AvailableClasses + tail
  }

  /**
    The compatibility check: rejects exactly the data whose race and class
    are both present and non-empty and whose class the race does not allow;
    any other data passes through unchanged.
  */
  function Validate(d: CharacterData): (r: Result<CharacterData, string>)
    ensures r.Failure? <==> (Truthy(d.race) && Truthy(d.characterClass)
      && d.characterClass.value !in AllowedClasses(d.race.value))
    ensures r.Success? ==> r.value == d
    ensures r.Failure? ==> r.error == RejectionMessage(d.race.value, d.characterClass.value)
  {
    if Truthy(d.race) && Truthy(d.characterClass) then
      var allowed := AllowedClasses(d.race.value);
      if d.characterClass.value !in allowed then
        Failure(RejectionMessage(d.race.value, d.characterClass.value))
      else Success(d)
    else Success(d)
  }

  /** For catalogue values, the check accepts exactly the pairs of the class-side relation. */
  lemma ValidateMatchesEligibility(d: CharacterData, r: Race, c: Class)
    requires d.race == Some(RaceName(r)) && d.characterClass == Some(ClassName(c))
    ensures Validate(d).Success? <==> r in RacesFor(c)
  {
    TableMatchesRacesFor(r, c);
  }

  /** The check never looks at the faction: a Moorish Castilian Knight passes. */
  lemma FactionIsNotChecked()
    ensures Validate(CharacterData(1, "Hero", Some("The Moors"), Some("Castilian"), Some("Knight"), true)).Success?
  {
  }

  /** Castilians are allowed Knight and Arbalist, in that order. */
  lemma CastilianRow()
    ensures AllowedClasses("Castilian") == ["Knight", "Arbalist"]
  {
    assert ParseRace("Castilian") == Some(Castilian);
    assert ClassNames([Knight, Arbalist]) == ["Knight", "Arbalist"];
  }

  /** A Castilian Alchemist is refused, and the message lists Knight and Arbalist. */
  lemma CastilianAlchemistMessage()
    ensures Validate(CharacterData(1, "Hero", Some("The Crusaders"), Some("Castilian"), Some("Alchemist"), true))
      == Failure(RejectionMessage("Castilian", "Alchemist"))
    ensures Join(AllowedClasses("Castilian"), ", ") == "Knight, Arbalist"
  {
    CastilianRow();
    assert "Alchemist" != "Knight" && "Alchemist" != "Arbalist";
    assert Join(["Knight", "Arbalist"], ", ") == "Knight" + ", " + "Arbalist";
  }
}
