/**
  Request sequences written as clients of the store: what a caller can
  conclude from the handlers' contracts alone.
 */
module Scenarios {

  import opened Wrappers
  import opened Json
  import opened Models
  import opened Routes

  /** Create a user and list the users: the password is not shown. */
  method UserSignUp() {
    var store := new Store();
    var body := JObj(map["email" := JStr("a@x.com"), "password" := JStr("p"), "is_active" := JBool(true)]);
    assert body.fields["email"] == JStr("a@x.com") && Truthy(body.fields["password"]);
    assert NewUser([], 1, body) == Some(User(1, JStr("a@x.com"), JStr("p"), JBool(true)));
    var r := store.CreateUser(body);
    assert r == Reply(201, Message("User created successfully"));
    var listed := store.GetUsers();
    assert |listed.payload.items| == 1;
    assert listed.payload.items[0] == JObj(SerializeUser(User(1, JStr("a@x.com"), JStr("p"), JBool(true))));
  }

  /** A second user with a taken email, or without is_active, is refused and nothing is added. */
  method UserRefused() {
    var store := new Store();
    var body := JObj(map["email" := JStr("a@x.com"), "password" := JStr("p"), "is_active" := JBool(true)]);
    assert body.fields["email"] == JStr("a@x.com") && Truthy(body.fields["password"]);
    assert body.fields["is_active"] == JBool(true);
    assert NewUser([], 1, body).Some?;
    var r := store.CreateUser(body);
    var again := JObj(map["email" := JStr("a@x.com"), "password" := JStr("q"), "is_active" := JBool(true)]);
    assert Get(again.fields, "email") == Get(body.fields, "email");
    DuplicateEmailFails([], 1, body, again);
    r := store.CreateUser(again);
    assert r == InternalError && |store.users| == 1;
    // Without is_active the NOT NULL column refuses the commit.
    var noFlag := JObj(map["email" := JStr("b@x.com"), "password" := JStr("p")]);
    assert "is_active" !in noFlag.fields;
    r := store.CreateUser(noFlag);
    assert r == InternalError && |store.users| == 1;
  }

  /** Favorite a planet, list the favorites, favorite it again, delete it, delete it again. */
  method FavoritePlanet() {
    var store := new Store();
    var body := JObj(map["planet_id" := JNum(1)]);
    assert Get(body.fields, "planet_id") == JNum(1) && Get(body.fields, "character_id") == JNull;
    assert NewFavorite([], 1, 1, body) == Some(Favorite(1, 1, JNum(1), JNull));
    var r := store.AddFavorite(1, body);
    assert r.Reply? && r.status == 201;
    assert store.favorites == [Favorite(1, 1, JNum(1), JNull)];
    var listed := store.GetFavorites(1);
    assert JObj(SerializeFavorite(Favorite(1, 1, JNum(1), JNull))) in listed.payload.items;
    DuplicateFavoriteFails([], 1, 1, body);
    r := store.AddFavorite(1, body);
    assert r == InternalError;
    r := store.DeleteFavorite(2, 1);
    assert r == InternalError && |store.favorites| == 1;
    r := store.DeleteFavorite(1, 1);
    assert r.Reply? && r.status == 200 && store.favorites == [];
    r := store.DeleteFavorite(1, 1);
    assert r == InternalError;
  }

}
