/**
  The four tables: the shape of their rows, the constraints their columns
  declare, and the `serialize` projection of each row to a JSON object.
  Every column other than the integer primary key holds the JSON value that
  the creating request supplied, with `JNull` for SQL NULL.
 */
module Models {

  import opened Json

  datatype User = User(id: nat, email: Json, password: Json, isActive: Json)

  datatype Favorite = Favorite(id: nat, userId: nat, planetId: Json, characterId: Json)

  datatype Planet = Planet(
    id: nat,
    name: Json,
    diameter: Json,
    rotationPeriod: Json,
    orbitalPeriod: Json,
    gravity: Json,
    population: Json,
    climate: Json,
    terrain: Json,
    surfaceWater: Json)

  datatype Character = Character(
    id: nat,
    birthYear: Json,
    eyeColor: Json,
    gender: Json,
    hairColor: Json,
    height: Json,
    name: Json,
    skinColor: Json,
    homeworld: Json,
    species: Json)

  // ---------------------------------------------------------------------
  // serialize
  // ---------------------------------------------------------------------

  const PlanetKeys: set<string> := {
    "id", "name", "diameter", "rotation_period", "orbital_period",
    "gravity", "population", "climate", "terrain", "surface_water"
  }

  const CharacterKeys: set<string> := {
    "id", "birth_year", "eye_color", "gender", "hair_color",
    "height", "name", "skin_color", "homeworld", "species"
  }

  /** `User.serialize`: the id and the email, and never the password. */
  function SerializeUser(u: User): (r: map<string, Json>)
    ensures r.Keys == {"id", "email"}
    ensures "password" !in r
  {
    map["id" := JNum(u.id), "email" := u.email]
  }

  /** `Favorites.serialize`: the four columns, an absent planet or character staying `null`. */
  function SerializeFavorite(f: Favorite): (r: map<string, Json>)
    ensures r.Keys == {"id", "user_id", "planet_id", "character_id"}
  {
    map[
      "id" := JNum(f.id),
      "user_id" := JNum(f.userId),
      "planet_id" := f.planetId,
      "character_id" := f.characterId]
  }

  /** `Planet.serialize`: all ten columns. */
  function SerializePlanet(p: Planet): (r: map<string, Json>)
    ensures r.Keys == PlanetKeys
  {
    map[
      "id" := JNum(p.id),
      "name" := p.name,
      "diameter" := p.diameter,
      "rotation_period" := p.rotationPeriod,
      "orbital_period" := p.orbitalPeriod,
      "gravity" := p.gravity,
      "population" := p.population,
      "climate" := p.climate,
      "terrain" := p.terrain,
      "surface_water" := p.surfaceWater]
  }

  /** `Character.serialize`: all ten columns; `homeworld` is free text, not a planet id. */
  function SerializeCharacter(c: Character): (r: map<string, Json>)
    ensures r.Keys == CharacterKeys
  {
    map[
      "id" := JNum(c.id),
      "birth_year" := c.birthYear,
      "eye_color" := c.eyeColor,
      "gender" := c.gender,
      "hair_color" := c.hairColor,
      "height" := c.height,
      "name" := c.name,
      "skin_color" := c.skinColor,
      "homeworld" := c.homeworld,
      "species" := c.species]
  }

  /** Two users serialize alike exactly when id and email agree: the password never shows. */
  lemma SerializeUserShowsOnlyIdAndEmail(u: User, v: User)
    ensures SerializeUser(u) == SerializeUser(v) <==> u.id == v.id && u.email == v.email
  {
  }

  /** `Favorites.serialize` loses nothing: the row can be told from its serialization. */
  lemma SerializeFavoriteInjective(f: Favorite, g: Favorite)
    ensures SerializeFavorite(f) == SerializeFavorite(g) <==> f == g
  {
  }

  /** `Planet.serialize` loses nothing: no two rows serialize alike. */
  lemma SerializePlanetInjective(p: Planet, q: Planet)
    ensures SerializePlanet(p) == SerializePlanet(q) <==> p == q
  {
  }

  /** `Character.serialize` loses nothing: no two rows serialize alike. */
  lemma SerializeCharacterInjective(c: Character, d: Character)
    ensures SerializeCharacter(c) == SerializeCharacter(d) <==> c == d
  {
  }

  // ---------------------------------------------------------------------
  // Column constraints checked when a new row is committed
  // ---------------------------------------------------------------------

  /** User: email, password and is_active are NOT NULL. */
  predicate UserNotNull(u: User) {
    u.email != JNull && u.password != JNull && u.isActive != JNull
  }

  /**
    A value SQLAlchemy's `Boolean` column type accepts: it refuses every value
    other than None, True, False, 0 and 1.
   */
  predicate BooleanValue(v: Json) {
    v == JNull || v.JBool? || v == JNum(0) || v == JNum(1)
  }

  /**
    Inserting `u` commits when every value can be bound (is_active as a
    boolean), the NOT NULL columns are set and the email is UNIQUE.
   */
  predicate UserInsertOk(users: seq<User>, u: User) {
    && Scalar(u.email) && Scalar(u.password) && BooleanValue(u.isActive)
    && UserNotNull(u)
    && forall v :: v in users ==> v.email != u.email
  }

  /** Planet: every column is NOT NULL. */
  predicate PlanetNotNull(p: Planet) {
    && p.name != JNull && p.diameter != JNull && p.rotationPeriod != JNull
    && p.orbitalPeriod != JNull && p.gravity != JNull && p.population != JNull
    && p.climate != JNull && p.terrain != JNull && p.surfaceWater != JNull
  }

  /**
    Inserting `p` commits when every value can be bound, the NOT NULL columns
    are set and the name is UNIQUE.
   */
  predicate PlanetInsertOk(planets: seq<Planet>, p: Planet) {
    && Scalar(p.name) && Scalar(p.diameter) && Scalar(p.rotationPeriod)
    && Scalar(p.orbitalPeriod) && Scalar(p.gravity) && Scalar(p.population)
    && Scalar(p.climate) && Scalar(p.terrain) && Scalar(p.surfaceWater)
    && PlanetNotNull(p)
    && forall q :: q in planets ==> q.name != p.name
  }

  /**
    Character declares no NOT NULL or UNIQUE column besides the primary key:
    inserting `c` commits when every value can be bound.
   */
  predicate CharacterInsertOk(c: Character) {
    && Scalar(c.birthYear) && Scalar(c.eyeColor) && Scalar(c.gender)
    && Scalar(c.hairColor) && Scalar(c.height) && Scalar(c.name)
    && Scalar(c.skinColor) && Scalar(c.homeworld) && Scalar(c.species)
  }

  // Favorites declares no NOT NULL or UNIQUE column besides the primary key,
  // and its planet and character ids have already been bound by the
  // duplicate query, so inserting one of its rows always commits when foreign
  // keys are not enforced.

  // ---------------------------------------------------------------------
  // Table invariants: what holds of every table the handlers can produce
  // ---------------------------------------------------------------------

  /** Primary keys are assigned in increasing order from 1 and stay below the next key. */
  ghost predicate UserIds(users: seq<User>, nextId: nat) {
    && 1 <= nextId
    && (forall i :: 0 <= i < |users| ==> 1 <= users[i].id < nextId)
    && (forall i, j :: 0 <= i < j < |users| ==> users[i].id < users[j].id)
  }

  ghost predicate PlanetIds(planets: seq<Planet>, nextId: nat) {
    && 1 <= nextId
    && (forall i :: 0 <= i < |planets| ==> 1 <= planets[i].id < nextId)
    && (forall i, j :: 0 <= i < j < |planets| ==> planets[i].id < planets[j].id)
  }

  ghost predicate CharacterIds(characters: seq<Character>, nextId: nat) {
    && 1 <= nextId
    && (forall i :: 0 <= i < |characters| ==> 1 <= characters[i].id < nextId)
    && (forall i, j :: 0 <= i < j < |characters| ==> characters[i].id < characters[j].id)
  }

  ghost predicate FavoriteIds(favorites: seq<Favorite>, nextId: nat) {
    && 1 <= nextId
    && (forall i :: 0 <= i < |favorites| ==> 1 <= favorites[i].id < nextId)
    && (forall i, j :: 0 <= i < j < |favorites| ==> favorites[i].id < favorites[j].id)
  }

  /** The User table: keys, NOT NULL columns, pairwise distinct emails. */
  ghost predicate UserTable(users: seq<User>, nextId: nat) {
    && UserIds(users, nextId)
    && (forall i :: 0 <= i < |users| ==> UserNotNull(users[i]))
    && (forall i, j :: 0 <= i < j < |users| ==> users[i].email != users[j].email)
  }

  /** The Planet table: keys, NOT NULL columns, pairwise distinct names. */
  ghost predicate PlanetTable(planets: seq<Planet>, nextId: nat) {
    && PlanetIds(planets, nextId)
    && (forall i :: 0 <= i < |planets| ==> PlanetNotNull(planets[i]))
    && (forall i, j :: 0 <= i < j < |planets| ==> planets[i].name != planets[j].name)
  }

  /**
    The Character table: keys and pairwise distinct names. No column
    constraint backs the names; only the creating handler's check does.
   */
  ghost predicate CharacterTable(characters: seq<Character>, nextId: nat) {
    && CharacterIds(characters, nextId)
    && (forall i, j :: 0 <= i < j < |characters| ==> characters[i].name != characters[j].name)
  }

  /** The same user, planet and character, an absent id matching only an absent id. */
  predicate SameTriple(f: Favorite, userId: nat, planetId: Json, characterId: Json) {
    f.userId == userId && f.planetId == planetId && f.characterId == characterId
  }

  /** The Favorites table: keys and no (user_id, planet_id, character_id) triple twice. */
  ghost predicate FavoriteTable(favorites: seq<Favorite>, nextId: nat) {
    && FavoriteIds(favorites, nextId)
    && (forall i, j :: 0 <= i < j < |favorites| ==>
          !SameTriple(favorites[i], favorites[j].userId, favorites[j].planetId, favorites[j].characterId))
  }

}
