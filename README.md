# SWAPI-flask store, modelled in Dafny

The repository is a small Flask/SQLAlchemy API over four tables: `User`,
`Planet`, `Character` and `Favorites`. Users, planets and characters can be
created and listed. A planet or character can also be fetched by id. A user's
favorites can be listed, added and deleted.

This project models that core:

- `json.dfy` (module `Json`): the JSON values that request bodies, stored
  columns and responses are made of. `Truthy` is Python truthiness and `Get`
  is `dict.get`.
- `models.dfy` (module `Models`): the four row shapes and each `serialize`
  projection. It also holds the column constraints that decide whether a
  commit succeeds (`NOT NULL`, `UNIQUE`), and the invariant each table keeps.
- `routes.dfy` (module `Routes`): the handlers. Each `filter_by(...).first()`
  query is a search over a table. The pure functions `NewUser`, `NewPlanet`,
  `NewCharacter`, `NewFavorite` and `FavoriteIndex` say which row a mutating
  handler commits, or that it fails. The class `Store` holds the four tables
  and the next primary key of each. Its methods are the mutating handlers and
  its functions are the read handlers.
- `scenarios.dfy` (module `Scenarios`): three request sequences
  (`UserSignUp`, `UserRefused`, `FavoritePlanet`), written as clients that
  rely only on the handlers' contracts.

How the handlers behave:

- A mutating handler passes through fixed steps: check the body, read the
  fields, reject a clash with an existing row, add, commit.
- Every failure returns `InternalError`, which is status 500. A mutating
  handler's failure also rolls the session back; a read handler's does not.
  The handlers mean to raise 400 or 404, but the catch-all `except Exception`
  turns every failure into a 500.
- On failure every table and every key counter is as before. On success
  exactly one row is appended, or, for a delete, removed.
- `Store.Valid()` is the invariant kept in every reachable state:
  - keys are increasing and below the next key;
  - the `NOT NULL` user and planet columns are set;
  - emails are pairwise distinct, and so are planet names and character names;
  - no favorite (user_id, planet_id, character_id) triple appears twice.

The handlers raise 400 or 404, but every failure is returned as a 500; the
model follows what is returned. Some consequences:

- A missing planet or character id ends in a 500, because the handler calls
  `.serialize()` on `None` (`src/routes.py:240-242`, `src/routes.py:253-255`).
- `POST /user` without `is_active` fails with a 500. The handler passes
  `None` to a `NOT NULL` column, and the commit refuses it
  (`src/models.py:9`).
- A `planet_id` or `character_id` of 0 counts as absent in the "one of them
  is required" check (`src/routes.py:156`). It is still stored, and matched,
  as the value 0.
- A JSON array or object in a field that is queried (email, a name, a
  favorite's ids) makes the query raise. One in any other column makes the
  commit raise, and so does an `is_active` other than true, false, 0 or 1,
  which SQLAlchemy's `Boolean` type refuses.

## Model

| member | source | states |
|---|---|---|
| `Models.SerializeUser` | src/models.py:14-19 | the result has exactly the keys id and email, so the password is never a key |
| `Models.SerializeUserShowsOnlyIdAndEmail` | src/models.py:14-19 | two users serialize alike exactly when their id and email agree; the password has no influence |
| `Models.SerializeFavorite` | src/models.py:30-36 | the result has exactly the keys id, user_id, planet_id, character_id |
| `Models.SerializeFavoriteInjective` | src/models.py:30-36 | equal serializations only for equal rows: no column is lost |
| `Models.SerializePlanet` | src/models.py:54-66 | the result has exactly the ten column keys |
| `Models.SerializePlanetInjective` | src/models.py:54-66 | equal serializations only for equal rows: no column is lost |
| `Models.SerializeCharacter` | src/models.py:83-95 | the result has exactly the ten column keys, homeworld as a plain value |
| `Models.SerializeCharacterInjective` | src/models.py:83-95 | equal serializations only for equal rows: no column is lost |
| `Models.UserInsertOk` | src/models.py:7-9 | a User insert commits exactly when email and password are bindable, is_active is a boolean, none of the three is null and the email is not taken |
| `Models.PlanetInsertOk` | src/models.py:40-48 | a Planet insert commits exactly when all nine columns are bindable and non-null and the name is not taken |
| `Models.CharacterInsertOk` | src/models.py:69-78 | a Character insert commits exactly when every value is bindable; no column is NOT NULL or UNIQUE |
| `Models.UserTable` | src/models.py:6-9 | the User table: keys increasing and below the next key, NOT NULL columns set, emails pairwise distinct |
| `Models.PlanetTable` | src/models.py:39-48 | the Planet table: keys increasing and below the next key, no column null, names pairwise distinct |
| `Models.CharacterTable` | src/models.py:69-78 | the Character table: keys increasing and below the next key, names pairwise distinct with no column constraint behind them |
| `Models.FavoriteTable` | src/models.py:22-25 | the Favorites table: keys increasing and below the next key, no (user_id, planet_id, character_id) triple twice |
| `Routes.Store.Valid` | src/routes.py:11-195 | the four table invariants together; the constructor establishes it and every mutating handler keeps it, so it holds in every reachable state |
| `Routes.FindUserByEmail` | src/routes.py:26 | finds a user with that email exactly when one exists |
| `Routes.FindPlanetByName` | src/routes.py:61 | finds a planet with that name exactly when one exists |
| `Routes.FindCharacterByName` | src/routes.py:107 | finds a character with that name exactly when one exists |
| `Routes.FindFavorite` | src/routes.py:160 | finds a row with the same user, planet and character ids (absent matching absent) exactly when one exists |
| `Routes.FindPlanetById` | src/routes.py:240 | finds the planet with that id exactly when one exists |
| `Routes.FindCharacterById` | src/routes.py:253 | finds the character with that id exactly when one exists |
| `Routes.FavoriteIndex` | src/routes.py:184 | gives the position of a row with that id and user_id, or None exactly when no row has both |
| `Routes.FavoritesOf` | src/routes.py:136 | holds exactly the rows with that user_id, each as often as in the table, and none other |
| `Routes.RemoveAt` | src/routes.py:188 | the table loses the row at that position and keeps the others in order |
| `Routes.NewUser` | src/routes.py:13-38 | commits a row exactly when the body is a non-empty object, email and password are truthy and bindable, is_active is a non-null boolean and the email is new; the row carries those values and the next key |
| `Routes.NewPlanet` | src/routes.py:41-84 | commits a row exactly when the body is a non-empty object, the name is truthy, bindable and new, and all eight other columns are supplied non-null and bindable |
| `Routes.NewCharacter` | src/routes.py:87-130 | commits a row exactly when the body is a non-empty object, the name is truthy and new, and every column value is bindable |
| `Routes.NewFavorite` | src/routes.py:145-178 | commits a row exactly when the body is a non-empty object, planet_id or character_id is truthy, both are bindable, and the triple is new; the row stores the ids as given |
| `Routes.NewUserKeepsTable` | src/routes.py:26-32 | a created user keeps the User table valid: emails pairwise distinct, NOT NULL columns set, keys increasing |
| `Routes.NewPlanetKeepsTable` | src/routes.py:61-78 | a created planet keeps the Planet table valid: names pairwise distinct, no column null |
| `Routes.NewCharacterKeepsTable` | src/routes.py:107-124 | a created character keeps character names pairwise distinct, through the handler's check alone |
| `Routes.NewFavoriteKeepsTable` | src/routes.py:160-172 | a created favorite keeps every (user_id, planet_id, character_id) triple unique |
| `Routes.RemoveAtKeepsTable` | src/routes.py:184-189 | deleting a favorite keeps the Favorites table valid |
| `Routes.RemoveAtTakesOnlyThatRow` | src/routes.py:184-189 | after a delete, a row remains exactly when it was there and has a different key |
| `Routes.DuplicateEmailFails` | src/routes.py:26-28 | after a user is created, a second body with the same email fails |
| `Routes.DuplicateFavoriteFails` | src/routes.py:160-162 | after a favorite is added, adding the same body again for the same user fails |
| `Routes.NewPlanetEchoesRequest` | src/routes.py:48-75 | a created planet serializes back to the next key and exactly the columns the request supplied |
| `Routes.NewCharacterEchoesRequest` | src/routes.py:94-121 | a created character serializes back to the next key and the request's columns, null where one was absent |
| `Routes.NewFavoriteEchoesRequest` | src/routes.py:153-169 | a created favorite serializes back to the next key, the user's id and the request's planet_id and character_id, null where one was absent |
| `Routes.Store.CreateUser` | src/routes.py:11-38 | 201 and one appended row exactly when `NewUser` commits one; otherwise 500 and the table unchanged; other tables untouched; invariant kept |
| `Routes.Store.CreatePlanet` | src/routes.py:40-84 | 201 and one appended row exactly when `NewPlanet` commits one; otherwise 500 and the table unchanged; invariant kept |
| `Routes.Store.CreateCharacter` | src/routes.py:86-130 | 201 and one appended row exactly when `NewCharacter` commits one; otherwise 500 and the table unchanged; invariant kept |
| `Routes.Store.AddFavorite` | src/routes.py:144-178 | 201 and one appended row exactly when `NewFavorite` commits one; otherwise 500 and the table unchanged; invariant kept |
| `Routes.Store.DeleteFavorite` | src/routes.py:180-195 | 200 and exactly the matching row removed when one matches id and user_id; otherwise 500 and the table unchanged; invariant kept |
| `Routes.Store.GetUsers` | src/routes.py:197-208 | 200 with each user serialized in table order, and no item has a password key |
| `Routes.Store.GetPlanets` | src/routes.py:210-222 | 200 with each planet serialized in table order |
| `Routes.Store.GetCharacters` | src/routes.py:224-235 | 200 with each character serialized in table order |
| `Routes.Store.GetFavorites` | src/routes.py:132-142 | 200 with one serialized item per row of `FavoritesOf`, in its order: exactly the user's rows, each once, an empty list when there are none |
| `Routes.Store.GetPlanet` | src/routes.py:237-247 | 200 with the planet's serialization exactly when a planet has that id; otherwise 500 |
| `Routes.Store.GetCharacter` | src/routes.py:249-260 | 200 with the character's serialization exactly when a character has that id; otherwise 500 |

## Left out

- Flask plumbing is not modelled: the blueprint, route decorators,
  `request.get_json()` and `jsonify`. A body is given as a `Json` value, with
  `JNull` when there is none. A path parameter is a `nat`, as Flask's `int`
  converter gives.
- The error text `str(e)` and `APIException` (in `utils`, which is not part
  of this model) are left out. A failure is only `InternalError`, status 500.
- Column types are modelled only as far as binding goes: an array or object
  is never bindable, and `Boolean` accepts only true, false, 0 and 1. Beyond
  that, the model stores and compares the raw JSON value. The database
  either converts a value to its column's type or refuses it, depending on
  the backend, which the source does not name. SQLite converts: a numeric
  string such as `"1"` in an `Integer` column becomes the integer 1, and a
  number in a `String` column becomes its decimal text, both when storing
  and when comparing in a query. PostgreSQL refuses: a query comparing a
  `String` column with a number raises, and so does a commit of a
  non-numeric string such as `"big"` into an `Integer` column. Where it
  refuses, the source returns 500 and the model may return 201. Length
  limits such as `String(120)` are not modelled.
- Integer width is not modelled. `JNum` is unbounded; the database refuses an
  integer wider than its `Integer` column (64 bits at most), and the model
  commits it.
- Routes.NewFavorite: stores and matches `planet_id` and `character_id` as the
  raw JSON value. Under SQLite, a favorite posted with `"1"` after one posted
  with `1` is a duplicate (500), but a new row to the model (201). Under
  PostgreSQL, a non-numeric string id makes the query raise (500), and the
  model commits it (201).
- Routes.FindFavorite: matches the raw JSON value, so `"1"` does not find a
  row holding 1, though SQLite's comparison does and PostgreSQL's raises on
  a non-numeric string.
- Routes.DuplicateFavoriteFails: covers a repeated body with the same JSON
  values only, not one that differs by a numeric string.
- Routes.NewPlanet: compares and stores the name and columns as raw JSON
  values. Under SQLite a numeric name (`1`) and its text (`"1"`) are the same
  name, while the model counts them as different. Under PostgreSQL a numeric
  name makes the query raise, and a non-numeric string in an `Integer`
  column makes the commit raise (500), while the model commits the row (201).
- Routes.NewUser: compares and stores the email as a raw JSON value. Under
  SQLite `1` and `"1"` are the same email, while the model counts them as
  different. Under PostgreSQL a numeric email makes the query raise (500),
  while the model commits the row (201).
- Routes.NewCharacter: compares and stores the name as a raw JSON value.
  Under SQLite `1` and `"1"` are the same name, while the model counts them
  as different. Under PostgreSQL a numeric name makes the query raise (500),
  while the model commits the row (201).
- Routes.NewPlanetEchoesRequest: echoes each column as the request gave it.
  Under SQLite the stored columns are read back converted, so `"12500"` as a
  diameter comes back as `12500`.
- Routes.NewCharacterEchoesRequest: echoes each column as the request gave
  it. Under SQLite the `String` columns are read back as text, so a number
  comes back as its decimal text.
- Routes.NewFavoriteEchoesRequest: echoes `planet_id` and `character_id` as
  the request gave them. Under SQLite a numeric string comes back as an
  integer.
- Foreign-key existence is not modelled. The handlers never check it, and
  whether the database enforces it depends on the backend.
- JSON numbers are integers. Floats, and the falsiness of `0.0`, are not
  modelled.
- Only the keys of the live rows are required to be distinct. Key reuse after
  a delete, and a key being consumed by a failed insert, are not modelled.
  The key counters are unchanged on failure.
- Database errors other than constraint failures are not modelled: a lost
  connection, or a query failing in a read handler.
- The `__repr__` methods are left out. They reference a nonexistent
  `username` attribute, and no handler calls them.
- Concurrency is not modelled. Each request runs to completion on its own,
  so the race between a uniqueness check and the insert that follows it
  cannot happen in the model.
- Routes.FavoritesOf: states which rows it holds and how often, but not that
  they keep table order.
- Routes.Store.GetUsers: returns the rows in insertion order. `query.all()`
  without `ORDER BY` promises no order, so the model fixes one of the orders
  the database may return.
- Routes.Store.GetPlanets: returns the rows in insertion order, where
  `query.all()` promises none.
- Routes.Store.GetCharacters: returns the rows in insertion order, where
  `query.all()` promises none.
