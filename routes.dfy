/**
  The request handlers. A `Store` holds the four tables and, per table, the
  next primary key the database will assign. The mutating handlers follow the
  handlers' fixed steps (read the body, check the required fields, look for a
  clash, add, commit) and every failure, whatever status the handler meant to
  raise, ends in the catch-all: rollback and a 500. The pure functions
  `NewUser`, `NewPlanet`, `NewCharacter`, `NewFavorite` and `FavoriteIndex`
  say which row a handler commits, and specify the methods.
 */
module Routes {

  import opened Wrappers
  import opened Json
  import opened Models

  /** A handler's reply: a status and a JSON payload, or the catch-all's 500 (its message is not modelled). */
  datatype Response = Reply(status: nat, payload: Json) | InternalError

  function Message(text: string): Json {
    JObj(map["message" := JStr(text)])
  }

  /**
    The guards every POST handler passes before it reads a field: `if not data`
    rejects a falsy body, and `data.get` raises unless the body is an object.
   */
  predicate UsableBody(body: Json) {
    Truthy(body) && body.JObj?
  }

  /** The key is present with a bindable value other than null, as a NOT NULL column needs. */
  predicate Supplied(fields: map<string, Json>, key: string) {
    key in fields && fields[key] != JNull && Scalar(fields[key])
  }

  // ---------------------------------------------------------------------
  // Queries: `filter_by(...).first()` over one table
  // ---------------------------------------------------------------------

  /** `User.query.filter_by(email=email).first()` */
  function FindUserByEmail(users: seq<User>, email: Json): (r: Option<User>)
    ensures r.Some? ==> r.value in users && r.value.email == email
    ensures r.None? <==> forall u :: u in users ==> u.email != email
  {
    if users == [] then None
    else if users[0].email == email then Some(users[0])
    else FindUserByEmail(users[1..], email)
  }

  /** `Planet.query.filter_by(name=name).first()` */
  function FindPlanetByName(planets: seq<Planet>, name: Json): (r: Option<Planet>)
    ensures r.Some? ==> r.value in planets && r.value.name == name
    ensures r.None? <==> forall p :: p in planets ==> p.name != name
  {
    if planets == [] then None
    else if planets[0].name == name then Some(planets[0])
    else FindPlanetByName(planets[1..], name)
  }

  /** `Character.query.filter_by(name=name).first()` */
  function FindCharacterByName(characters: seq<Character>, name: Json): (r: Option<Character>)
    ensures r.Some? ==> r.value in characters && r.value.name == name
    ensures r.None? <==> forall c :: c in characters ==> c.name != name
  {
    if characters == [] then None
    else if characters[0].name == name then Some(characters[0])
    else FindCharacterByName(characters[1..], name)
  }

  /**
    `Favorites.query.filter_by(user_id=..., planet_id=..., character_id=...).first()`;
    a None argument filters with IS NULL, so an absent id matches only an absent id.
   */
  function FindFavorite(favorites: seq<Favorite>, userId: nat, planetId: Json, characterId: Json)
    : (r: Option<Favorite>)
    ensures r.Some? ==> r.value in favorites && SameTriple(r.value, userId, planetId, characterId)
    ensures r.None? <==> forall f :: f in favorites ==> !SameTriple(f, userId, planetId, characterId)
  {
    if favorites == [] then None
    else if SameTriple(favorites[0], userId, planetId, characterId) then Some(favorites[0])
    else FindFavorite(favorites[1..], userId, planetId, characterId)
  }

  /** `Planet.query.filter_by(id=planet_id).first()` */
  function FindPlanetById(planets: seq<Planet>, planetId: nat): (r: Option<Planet>)
    ensures r.Some? ==> r.value in planets && r.value.id == planetId
    ensures r.None? <==> forall p :: p in planets ==> p.id != planetId
  {
    if planets == [] then None
    else if planets[0].id == planetId then Some(planets[0])
    else FindPlanetById(planets[1..], planetId)
  }

  /** `Character.query.filter_by(id=character_id).first()` */
  function FindCharacterById(characters: seq<Character>, characterId: nat): (r: Option<Character>)
    ensures r.Some? ==> r.value in characters && r.value.id == characterId
    ensures r.None? <==> forall c :: c in characters ==> c.id != characterId
  {
    if characters == [] then None
    else if characters[0].id == characterId then Some(characters[0])
    else FindCharacterById(characters[1..], characterId)
  }

  /** `Favorites.query.filter_by(user_id=user_id, id=favorite_id).first()`, as the row's position. */
  function FavoriteIndex(favorites: seq<Favorite>, userId: nat, favoriteId: nat): (r: Option<nat>)
    ensures r.Some? ==>
      && r.value < |favorites|
      && favorites[r.value].id == favoriteId && favorites[r.value].userId == userId
    ensures r.None? <==> forall f :: f in favorites ==> !(f.id == favoriteId && f.userId == userId)
  {
    if favorites == [] then None
    else if favorites[0].id == favoriteId && favorites[0].userId == userId then Some(0)
    else
      match FavoriteIndex(favorites[1..], userId, favoriteId)
      case Some(i) => Some(i + 1)
      case None => None
  }

  /** `Favorites.query.filter_by(user_id=user_id).all()`, in table order. */
  function FavoritesOf(favorites: seq<Favorite>, userId: nat): (r: seq<Favorite>)
    ensures |r| <= |favorites|
    ensures forall f :: f in r <==> f in favorites && f.userId == userId
    ensures forall f :: multiset(r)[f] == if f.userId == userId then multiset(favorites)[f] else 0
  {
    if favorites == [] then []
    else
      assert favorites == [favorites[0]] + favorites[1..];
      if favorites[0].userId == userId then [favorites[0]] + FavoritesOf(favorites[1..], userId)
      else FavoritesOf(favorites[1..], userId)
  }

  /** `db.session.delete(row)`: the table without the row at position `i`, the others in order. */
  function RemoveAt(favorites: seq<Favorite>, i: nat): (r: seq<Favorite>)
    requires i < |favorites|
    ensures |r| == |favorites| - 1
    ensures forall j :: 0 <= j < i ==> r[j] == favorites[j]
    ensures forall j :: i <= j < |r| ==> r[j] == favorites[j + 1]
  {
    favorites[..i] + favorites[i + 1..]
  }

  // ---------------------------------------------------------------------
  // Which row a mutating handler commits
  // ---------------------------------------------------------------------

  /**
    `create_user`: the row committed, or None when the handler fails. It
    succeeds exactly when the body is a non-empty object with a truthy email
    and password that can be bound, an is_active that is a boolean (the column
    is NOT NULL and of type Boolean), and an email no user has yet.
   */
  function NewUser(users: seq<User>, nextId: nat, body: Json): (row: Option<User>)
    ensures row.Some? <==>
      && UsableBody(body)
      && "email" in body.fields && Truthy(body.fields["email"]) && Scalar(body.fields["email"])
      && "password" in body.fields && Truthy(body.fields["password"]) && Scalar(body.fields["password"])
      && "is_active" in body.fields && BooleanValue(body.fields["is_active"]) && body.fields["is_active"] != JNull
      && forall u :: u in users ==> u.email != body.fields["email"]
    ensures row.Some? ==>
      row.value == User(nextId, body.fields["email"], body.fields["password"], body.fields["is_active"])
  {
    if !UsableBody(body) then None
    else
      var data := body.fields;
      var email, password, isActive := Get(data, "email"), Get(data, "password"), Get(data, "is_active");
      if !Truthy(email) || !Truthy(password) then None
      // the query cannot bind an array or an object
      else if !Scalar(email) then None
      else if FindUserByEmail(users, email).Some? then None
      else
        var u := User(nextId, email, password, isActive);
        if UserInsertOk(users, u) then Some(u) else None
  }

  /**
    `create_planet`: the row committed, or None. It succeeds exactly when the
    body is a non-empty object with a truthy name no planet has yet, and every
    other column is supplied (all are NOT NULL), every value bindable.
   */
  function NewPlanet(planets: seq<Planet>, nextId: nat, body: Json): (row: Option<Planet>)
    ensures row.Some? <==>
      && UsableBody(body)
      && "name" in body.fields && Truthy(body.fields["name"]) && Scalar(body.fields["name"])
      && Supplied(body.fields, "diameter") && Supplied(body.fields, "rotation_period")
      && Supplied(body.fields, "orbital_period") && Supplied(body.fields, "gravity")
      && Supplied(body.fields, "population") && Supplied(body.fields, "climate")
      && Supplied(body.fields, "terrain") && Supplied(body.fields, "surface_water")
      && forall p :: p in planets ==> p.name != body.fields["name"]
    ensures row.Some? ==> row.value.id == nextId && row.value.name == body.fields["name"]
  {
    if !UsableBody(body) then None
    else
      var data := body.fields;
      var name := Get(data, "name");
      if !Truthy(name) then None
      // the query cannot bind an array or an object
      else if !Scalar(name) then None
      else if FindPlanetByName(planets, name).Some? then None
      else
        var p := Planet(nextId, name, Get(data, "diameter"), Get(data, "rotation_period"),
                        Get(data, "orbital_period"), Get(data, "gravity"), Get(data, "population"),
                        Get(data, "climate"), Get(data, "terrain"), Get(data, "surface_water"));
        if PlanetInsertOk(planets, p) then Some(p) else None
  }

  /**
    `create_character`: the row committed, or None. It succeeds exactly when
    the body is a non-empty object with a truthy name no character has yet,
    and every value can be bound; every column other than the name may be null.
   */
  function NewCharacter(characters: seq<Character>, nextId: nat, body: Json): (row: Option<Character>)
    ensures row.Some? <==>
      && UsableBody(body)
      && "name" in body.fields && Truthy(body.fields["name"])
      && (forall k :: k in CharacterKeys && k != "id" ==> Scalar(Get(body.fields, k)))
      && forall c :: c in characters ==> c.name != body.fields["name"]
    ensures row.Some? ==> row.value.id == nextId && row.value.name == body.fields["name"]
  {
    if !UsableBody(body) then None
    else
      var data := body.fields;
      var name := Get(data, "name");
      if !Truthy(name) then None
      // the query cannot bind an array or an object
      else if !Scalar(name) then None
      else if FindCharacterByName(characters, name).Some? then None
      else
        var c := Character(nextId, Get(data, "birth_year"), Get(data, "eye_color"), Get(data, "gender"),
                           Get(data, "hair_color"), Get(data, "height"), name, Get(data, "skin_color"),
                           Get(data, "homeworld"), Get(data, "species"));
        if CharacterInsertOk(c) then Some(c) else None
  }

  /**
    `add_favorite`: the row committed, or None. It succeeds exactly when the
    body is a non-empty object in which planet_id or character_id is truthy
    (0 counts as absent), both can be bound by the duplicate query, and the
    user has no row with the same pair of ids.
   */
  function NewFavorite(favorites: seq<Favorite>, nextId: nat, userId: nat, body: Json)
    : (row: Option<Favorite>)
    ensures row.Some? <==>
      && UsableBody(body)
      && (Truthy(Get(body.fields, "planet_id")) || Truthy(Get(body.fields, "character_id")))
      && Scalar(Get(body.fields, "planet_id")) && Scalar(Get(body.fields, "character_id"))
      && forall f :: f in favorites ==>
           !SameTriple(f, userId, Get(body.fields, "planet_id"), Get(body.fields, "character_id"))
    ensures row.Some? ==>
      row.value == Favorite(nextId, userId, Get(body.fields, "planet_id"), Get(body.fields, "character_id"))
  {
    if !UsableBody(body) then None
    else
      var data := body.fields;
      var planetId, characterId := Get(data, "planet_id"), Get(data, "character_id");
      if !Truthy(planetId) && !Truthy(characterId) then None
      // the query cannot bind an array or an object
      else if !Scalar(planetId) || !Scalar(characterId) then None
      else if FindFavorite(favorites, userId, planetId, characterId).Some? then None
      else Some(Favorite(nextId, userId, planetId, characterId))
  }

  // ---------------------------------------------------------------------
  // What the committed rows do to the tables
  // ---------------------------------------------------------------------

  /** A created user keeps the User table valid: in particular emails stay pairwise distinct. */
  lemma NewUserKeepsTable(users: seq<User>, nextId: nat, body: Json)
    requires UserTable(users, nextId)
    requires NewUser(users, nextId, body).Some?
    ensures UserTable(users + [NewUser(users, nextId, body).value], nextId + 1)
  {
  }

  /** A created planet keeps the Planet table valid: names stay pairwise distinct and no column is null. */
  lemma NewPlanetKeepsTable(planets: seq<Planet>, nextId: nat, body: Json)
    requires PlanetTable(planets, nextId)
    requires NewPlanet(planets, nextId, body).Some?
    ensures PlanetTable(planets + [NewPlanet(planets, nextId, body).value], nextId + 1)
  {
  }

  /** A created character keeps the Character table valid: names stay pairwise distinct. */
  lemma NewCharacterKeepsTable(characters: seq<Character>, nextId: nat, body: Json)
    requires CharacterTable(characters, nextId)
    requires NewCharacter(characters, nextId, body).Some?
    ensures CharacterTable(characters + [NewCharacter(characters, nextId, body).value], nextId + 1)
  {
  }

  /** A created favorite keeps the Favorites table valid: no triple appears twice. */
  lemma NewFavoriteKeepsTable(favorites: seq<Favorite>, nextId: nat, userId: nat, body: Json)
    requires FavoriteTable(favorites, nextId)
    requires NewFavorite(favorites, nextId, userId, body).Some?
    ensures FavoriteTable(favorites + [NewFavorite(favorites, nextId, userId, body).value], nextId + 1)
  {
  }

  /** Deleting a row keeps the Favorites table valid. */
  lemma RemoveAtKeepsTable(favorites: seq<Favorite>, nextId: nat, i: nat)
    requires FavoriteTable(favorites, nextId)
    requires i < |favorites|
    ensures FavoriteTable(RemoveAt(favorites, i), nextId)
  {
  }

  /**
    With distinct keys, a delete takes away the row with that key and keeps
    every other row: nothing else changes.
   */
  lemma RemoveAtTakesOnlyThatRow(favorites: seq<Favorite>, nextId: nat, i: nat)
    requires FavoriteIds(favorites, nextId)
    requires i < |favorites|
    ensures forall f :: f in RemoveAt(favorites, i) <==> f in favorites && f.id != favorites[i].id
  {
  }

  /** Posting the same email twice: the second `create_user` fails, whatever else its body says. */
  lemma DuplicateEmailFails(users: seq<User>, nextId: nat, first: Json, second: Json)
    requires NewUser(users, nextId, first).Some?
    requires UsableBody(second) && Get(second.fields, "email") == Get(first.fields, "email")
    ensures NewUser(users + [NewUser(users, nextId, first).value], nextId + 1, second).None?
  {
  }

  /** Posting the same favorite twice: the second `add_favorite` fails. */
  lemma DuplicateFavoriteFails(favorites: seq<Favorite>, nextId: nat, userId: nat, body: Json)
    requires NewFavorite(favorites, nextId, userId, body).Some?
    ensures NewFavorite(favorites + [NewFavorite(favorites, nextId, userId, body).value], nextId + 1, userId, body).None?
  {
    var f := NewFavorite(favorites, nextId, userId, body).value;
    assert f in favorites + [f];
  }

  /** A created planet serializes back to exactly the columns the request supplied. */
  lemma NewPlanetEchoesRequest(planets: seq<Planet>, nextId: nat, body: Json)
    requires NewPlanet(planets, nextId, body).Some?
    ensures var m := SerializePlanet(NewPlanet(planets, nextId, body).value);
      && m["id"] == JNum(nextId)
      && forall k :: k in PlanetKeys && k != "id" ==> k in body.fields && m[k] == body.fields[k]
  {
  }

  /** A created character serializes back to the request's columns, null where one was absent. */
  lemma NewCharacterEchoesRequest(characters: seq<Character>, nextId: nat, body: Json)
    requires NewCharacter(characters, nextId, body).Some?
    ensures var m := SerializeCharacter(NewCharacter(characters, nextId, body).value);
      && m["id"] == JNum(nextId)
      && forall k :: k in CharacterKeys && k != "id" ==> m[k] == Get(body.fields, k)
  {
  }

  /** A created favorite serializes back to the next key, the user and the request's ids, null where one was absent. */
  lemma NewFavoriteEchoesRequest(favorites: seq<Favorite>, nextId: nat, userId: nat, body: Json)
    requires NewFavorite(favorites, nextId, userId, body).Some?
    ensures var m := SerializeFavorite(NewFavorite(favorites, nextId, userId, body).value);
      && m["id"] == JNum(nextId)
      && m["user_id"] == JNum(userId)
      && m["planet_id"] == Get(body.fields, "planet_id")
      && m["character_id"] == Get(body.fields, "character_id")
  {
  }

  // ---------------------------------------------------------------------
  // The store and its handlers
  // ---------------------------------------------------------------------

  class Store {
    var users: seq<User>
    var planets: seq<Planet>
    var characters: seq<Character>
    var favorites: seq<Favorite>
    var nextUserId: nat
    var nextPlanetId: nat
    var nextCharacterId: nat
    var nextFavoriteId: nat

    /** The invariant every reachable state keeps. */
    ghost predicate Valid()
      reads this
    {
      && UserTable(users, nextUserId)
      && PlanetTable(planets, nextPlanetId)
      && CharacterTable(characters, nextCharacterId)
      && FavoriteTable(favorites, nextFavoriteId)
    }

    constructor ()
      ensures Valid()
      ensures users == [] && planets == [] && characters == [] && favorites == []
      ensures nextUserId == 1 && nextPlanetId == 1 && nextCharacterId == 1 && nextFavoriteId == 1
    {
      users, planets, characters, favorites := [], [], [], [];
      nextUserId, nextPlanetId, nextCharacterId, nextFavoriteId := 1, 1, 1, 1;
    }

    /** POST /user */
    method CreateUser(body: Json) returns (r: Response)
      requires Valid()
      modifies this`users, this`nextUserId
      ensures Valid()
      ensures var row := NewUser(old(users), old(nextUserId), body);
        && r == (if row.Some? then Reply(201, Message("User created successfully")) else InternalError)
        && users == (if row.Some? then old(users) + [row.value] else old(users))
        && nextUserId == (if row.Some? then old(nextUserId) + 1 else old(nextUserId))
    {
      if !UsableBody(body) {
        return InternalError;
      }
      var data := body.fields;
      var email, password, isActive := Get(data, "email"), Get(data, "password"), Get(data, "is_active");
      if !Truthy(email) || !Truthy(password) {
        return InternalError;
      }
      // The query raises on a value it cannot bind.
      if !Scalar(email) {
        return InternalError;
      }
      var existing := FindUserByEmail(users, email);
      if existing.Some? {
        return InternalError;
      }
      var newUser := User(nextUserId, email, password, isActive);
      var before := users;
      users := users + [newUser];
      // The commit checks the NOT NULL and UNIQUE columns; when it fails, the rollback restores the table.
      if !UserInsertOk(before, newUser) {
        users := before;
        return InternalError;
      }
      NewUserKeepsTable(before, nextUserId, body);
      nextUserId := nextUserId + 1;
      r := Reply(201, Message("User created successfully"));
    }

    /** POST /planet */
    method CreatePlanet(body: Json) returns (r: Response)
      requires Valid()
      modifies this`planets, this`nextPlanetId
      ensures Valid()
      ensures var row := NewPlanet(old(planets), old(nextPlanetId), body);
        && r == (if row.Some? then Reply(201, Message("Planet created successfully")) else InternalError)
        && planets == (if row.Some? then old(planets) + [row.value] else old(planets))
        && nextPlanetId == (if row.Some? then old(nextPlanetId) + 1 else old(nextPlanetId))
    {
      if !UsableBody(body) {
        return InternalError;
      }
      var data := body.fields;
      var name := Get(data, "name");
      if !Truthy(name) {
        return InternalError;
      }
      // The query raises on a value it cannot bind.
      if !Scalar(name) {
        return InternalError;
      }
      var existing := FindPlanetByName(planets, name);
      if existing.Some? {
        return InternalError;
      }
      var newPlanet := Planet(nextPlanetId, name, Get(data, "diameter"), Get(data, "rotation_period"),
                              Get(data, "orbital_period"), Get(data, "gravity"), Get(data, "population"),
                              Get(data, "climate"), Get(data, "terrain"), Get(data, "surface_water"));
      var before := planets;
      planets := planets + [newPlanet];
      // The commit checks the NOT NULL and UNIQUE columns; when it fails, the rollback restores the table.
      if !PlanetInsertOk(before, newPlanet) {
        planets := before;
        return InternalError;
      }
      NewPlanetKeepsTable(before, nextPlanetId, body);
      nextPlanetId := nextPlanetId + 1;
      r := Reply(201, Message("Planet created successfully"));
    }

    /** POST /people */
    method CreateCharacter(body: Json) returns (r: Response)
      requires Valid()
      modifies this`characters, this`nextCharacterId
      ensures Valid()
      ensures var row := NewCharacter(old(characters), old(nextCharacterId), body);
        && r == (if row.Some? then Reply(201, Message("Character created successfully")) else InternalError)
        && characters == (if row.Some? then old(characters) + [row.value] else old(characters))
        && nextCharacterId == (if row.Some? then old(nextCharacterId) + 1 else old(nextCharacterId))
    {
      if !UsableBody(body) {
        return InternalError;
      }
      var data := body.fields;
      var name := Get(data, "name");
      if !Truthy(name) {
        return InternalError;
      }
      // The query raises on a value it cannot bind.
      if !Scalar(name) {
        return InternalError;
      }
      var existing := FindCharacterByName(characters, name);
      if existing.Some? {
        return InternalError;
      }
      var newCharacter := Character(nextCharacterId, Get(data, "birth_year"), Get(data, "eye_color"),
                                    Get(data, "gender"), Get(data, "hair_color"), Get(data, "height"),
                                    name, Get(data, "skin_color"), Get(data, "homeworld"),
                                    Get(data, "species"));
      var before := characters;
      characters := characters + [newCharacter];
      // The commit binds every value; when it fails, the rollback restores the table.
      if !CharacterInsertOk(newCharacter) {
        characters := before;
        return InternalError;
      }
      NewCharacterKeepsTable(before, nextCharacterId, body);
      nextCharacterId := nextCharacterId + 1;
      r := Reply(201, Message("Character created successfully"));
    }

    /** POST /user/{user_id}/favorites */
    method AddFavorite(userId: nat, body: Json) returns (r: Response)
      requires Valid()
      modifies this`favorites, this`nextFavoriteId
      ensures Valid()
      ensures var row := NewFavorite(old(favorites), old(nextFavoriteId), userId, body);
        && r == (if row.Some? then Reply(201, Message("Favorite created successfully")) else InternalError)
        && favorites == (if row.Some? then old(favorites) + [row.value] else old(favorites))
        && nextFavoriteId == (if row.Some? then old(nextFavoriteId) + 1 else old(nextFavoriteId))
    {
      if !UsableBody(body) {
        return InternalError;
      }
      var data := body.fields;
      var planetId, characterId := Get(data, "planet_id"), Get(data, "character_id");
      if !Truthy(planetId) && !Truthy(characterId) {
        return InternalError;
      }
      // The query raises on a value it cannot bind.
      if !Scalar(planetId) || !Scalar(characterId) {
        return InternalError;
      }
      var existing := FindFavorite(favorites, userId, planetId, characterId);
      if existing.Some? {
        return InternalError;
      }
      var newFavorite := Favorite(nextFavoriteId, userId, planetId, characterId);
      NewFavoriteKeepsTable(favorites, nextFavoriteId, userId, body);
      // Favorites declares no NOT NULL or UNIQUE column and its ids were bound by the query,
      // so the commit succeeds when foreign keys are not enforced.
      favorites := favorites + [newFavorite];
      nextFavoriteId := nextFavoriteId + 1;
      r := Reply(201, Message("Favorite created successfully"));
    }

    /** DELETE /user/{user_id}/favorites/{favorite_id} */
    method DeleteFavorite(userId: nat, favoriteId: nat) returns (r: Response)
      requires Valid()
      modifies this`favorites
      ensures Valid()
      ensures var i := FavoriteIndex(old(favorites), userId, favoriteId);
        && r == (if i.Some? then Reply(200, Message("Favorite deleted successfully")) else InternalError)
        && favorites == (if i.Some? then RemoveAt(old(favorites), i.value) else old(favorites))
    {
      var found := FavoriteIndex(favorites, userId, favoriteId);
      if found.None? {
        return InternalError;
      }
      RemoveAtKeepsTable(favorites, nextFavoriteId, found.value);
      favorites := RemoveAt(favorites, found.value);
      r := Reply(200, Message("Favorite deleted successfully"));
    }

    /** GET /user: every user, serialized without the password. */
    function GetUsers(): (r: Response)
      reads this
      ensures r.Reply? && r.status == 200 && r.payload.JArr? && |r.payload.items| == |users|
      ensures forall i :: 0 <= i < |users| ==> r.payload.items[i] == JObj(SerializeUser(users[i]))
      ensures forall item :: item in r.payload.items ==> item.JObj? && "password" !in item.fields
    {
      var us := users;
      Reply(200, JArr(seq(|us|, i requires 0 <= i < |us| => JObj(SerializeUser(us[i])))))
    }

    /** GET /planet: every planet, serialized. */
    function GetPlanets(): (r: Response)
      reads this
      ensures r.Reply? && r.status == 200 && r.payload.JArr? && |r.payload.items| == |planets|
      ensures forall i :: 0 <= i < |planets| ==> r.payload.items[i] == JObj(SerializePlanet(planets[i]))
    {
      var ps := planets;
      Reply(200, JArr(seq(|ps|, i requires 0 <= i < |ps| => JObj(SerializePlanet(ps[i])))))
    }

    /** GET /people: every character, serialized. */
    function GetCharacters(): (r: Response)
      reads this
      ensures r.Reply? && r.status == 200 && r.payload.JArr? && |r.payload.items| == |characters|
      ensures forall i :: 0 <= i < |characters| ==> r.payload.items[i] == JObj(SerializeCharacter(characters[i]))
    {
      var cs := characters;
      Reply(200, JArr(seq(|cs|, i requires 0 <= i < |cs| => JObj(SerializeCharacter(cs[i])))))
    }

    /** GET /user/{user_id}/favorites: exactly the user's rows, serialized; an empty list when there are none. */
    function GetFavorites(userId: nat): (r: Response)
      reads this
      ensures r.Reply? && r.status == 200 && r.payload.JArr?
      ensures |r.payload.items| == |FavoritesOf(favorites, userId)|
      ensures forall i :: 0 <= i < |r.payload.items| ==>
        r.payload.items[i] == JObj(SerializeFavorite(FavoritesOf(favorites, userId)[i]))
      ensures forall f :: f in favorites && f.userId == userId ==> JObj(SerializeFavorite(f)) in r.payload.items
      ensures forall item :: item in r.payload.items ==>
        exists f :: f in favorites && f.userId == userId && item == JObj(SerializeFavorite(f))
    {
      var fs := FavoritesOf(favorites, userId);
      var items := seq(|fs|, i requires 0 <= i < |fs| => JObj(SerializeFavorite(fs[i])));
      assert forall f :: f in fs ==> JObj(SerializeFavorite(f)) in items by {
        forall f | f in fs ensures JObj(SerializeFavorite(f)) in items {
          var i :| 0 <= i < |fs| && fs[i] == f;
          assert items[i] == JObj(SerializeFavorite(f));
        }
      }
      Reply(200, JArr(items))
    }

    /**
      GET /planet/{planet_id}: the planet serialized, or a 500 when there is
      none, because `.serialize()` is then called on None.
     */
    function GetPlanet(planetId: nat): (r: Response)
      reads this
      ensures r.Reply? <==> exists p :: p in planets && p.id == planetId
      ensures r.Reply? ==>
        r.status == 200 && exists p :: p in planets && p.id == planetId && r.payload == JObj(SerializePlanet(p))
    {
      match FindPlanetById(planets, planetId)
      case Some(p) => Reply(200, JObj(SerializePlanet(p)))
      case None => InternalError
    }

    /**
      GET /people/{character_id}: the character serialized, or a 500 when
      there is none, because `.serialize()` is then called on None.
     */
    function GetCharacter(characterId: nat): (r: Response)
      reads this
      ensures r.Reply? <==> exists c :: c in characters && c.id == characterId
      ensures r.Reply? ==>
        r.status == 200
        && exists c :: c in characters && c.id == characterId && r.payload == JObj(SerializeCharacter(c))
    {
      match FindCharacterById(characters, characterId)
      case Some(c) => Reply(200, JObj(SerializeCharacter(c)))
      case None => InternalError
    }
  }

}
