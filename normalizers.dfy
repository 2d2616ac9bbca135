/**
 * The shared normalizers: they turn whatever shape the backend sends for a user, a post or a
 * comment into one fixed record shape, by `??` fallback chains over alternative keys.
 */
module Normalizers {
  import opened Wrappers
  import opened JsValues
  import opened JsText

  /** `normalizeUser`'s result; the non-id fields keep whatever JSON value was chosen. */
  datatype User = User(
    id: string,
    name: JsValue,
    email: JsValue,
    headline: JsValue,
    avatar: JsValue,
    bio: JsValue,
    location: JsValue,
    company: JsValue,
    position: JsValue,
    createdAt: JsValue)

  datatype Post = Post(
    id: string,
    userId: string,
    content: JsValue,
    imageUrl: JsValue,
    likesCount: JsValue,
    commentsCount: JsValue,
    createdAt: JsValue,
    isLiked: bool,
    user: User)

  datatype Comment = Comment(
    id: string,
    userId: string,
    postId: string,
    content: JsValue,
    createdAt: JsValue,
    user: User)

  /** The value under the first of two keys that is not nullish, else `d`. */
  function Prefer(raw: Slot, first: string, second: string, d: JsValue): JsValue {
    Default(Coalesce(Get(raw, first), Get(raw, second)), d)
  }

  /** `normalizeUser` */
  function NormalizeUser(raw: Slot): (r: User)
    // `id` wins over `_id`
    ensures !Nullish(Get(raw, "id")) ==> r.id == ToStr(Get(raw, "id").value)
    ensures Nullish(Get(raw, "id")) ==> r.id == ToStringId(Get(raw, "_id"))
    // `name`, then `username`, then ""; `email`, then ""
    ensures FirstOf(r.name, Get(raw, "name"), Get(raw, "username"), JsString([]))
    ensures FirstOf(r.email, Get(raw, "email"), None, JsString([]))
    // `headline` over `userHeadline` and `avatar` over `userAvatar`, then null
    ensures FirstOf(r.headline, Get(raw, "headline"), Get(raw, "userHeadline"), JsNull)
    ensures FirstOf(r.avatar, Get(raw, "avatar"), Get(raw, "userAvatar"), JsNull)
    // the plain optional fields, else null
    ensures FirstOf(r.bio, Get(raw, "bio"), None, JsNull)
    ensures FirstOf(r.location, Get(raw, "location"), None, JsNull)
    ensures FirstOf(r.company, Get(raw, "company"), None, JsNull)
    ensures FirstOf(r.position, Get(raw, "position"), None, JsNull)
    // `createdAt`, then `updatedAt`, then null
    ensures FirstOf(r.createdAt, Get(raw, "createdAt"), Get(raw, "updatedAt"), JsNull)
  {
    User(
      id := RecordId(raw),
      name := Prefer(raw, "name", "username", JsString([])),
      email := Default(Get(raw, "email"), JsString([])),
      headline := Prefer(raw, "headline", "userHeadline", JsNull),
      avatar := Prefer(raw, "avatar", "userAvatar", JsNull),
      bio := Default(Get(raw, "bio"), JsNull),
      location := Default(Get(raw, "location"), JsNull),
      company := Default(Get(raw, "company"), JsNull),
      position := Default(Get(raw, "position"), JsNull),
      createdAt := Prefer(raw, "createdAt", "updatedAt", JsNull))
  }

  /** A normalized user written back as a JSON object under its own keys. */
  function UserJson(u: User): JsValue {
    JsObject(map[
      "id" := JsString(u.id), "name" := u.name, "email" := u.email,
      "headline" := u.headline, "avatar" := u.avatar, "bio" := u.bio,
      "location" := u.location, "company" := u.company, "position" := u.position,
      "createdAt" := u.createdAt])
  }

  /** Normalizing an already normalized user changes nothing. */
  lemma UserJsonReads(u: User)
    ensures var j := Some(UserJson(u));
      && Get(j, "id") == Some(JsString(u.id)) && Get(j, "_id") == None
      && Get(j, "name") == Some(u.name) && Get(j, "username") == None
      && Get(j, "email") == Some(u.email)
      && Get(j, "headline") == Some(u.headline) && Get(j, "userHeadline") == None
      && Get(j, "avatar") == Some(u.avatar) && Get(j, "userAvatar") == None
      && Get(j, "bio") == Some(u.bio) && Get(j, "location") == Some(u.location)
      && Get(j, "company") == Some(u.company) && Get(j, "position") == Some(u.position)
      && Get(j, "createdAt") == Some(u.createdAt) && Get(j, "updatedAt") == None
  {
  }

  lemma NormalizeUserIdempotent(raw: Slot)
    ensures NormalizeUser(Some(UserJson(NormalizeUser(raw)))) == NormalizeUser(raw)
  {
    var u := NormalizeUser(raw);
    UserJsonReads(u);
  }

  /** The flat author fields of a post or comment, as the object literal the handler builds. */
  function FlatAuthor(raw: Slot, headlineKey: string, avatarKey: string): (r: JsValue)
    ensures r.JsObject?
    ensures forall k :: k in r.fields ==> k == "id" || k == "name" || k == "headline" || k == "avatar"
    ensures Get(Some(r), "id") == Get(raw, "userId") && Get(Some(r), "name") == Get(raw, "username")
    ensures Get(Some(r), "headline") == Get(raw, headlineKey) && Get(Some(r), "avatar") == Get(raw, avatarKey)
  {
    JsObject(Put(Put(Put(Put(map[], "id", Get(raw, "userId")), "name", Get(raw, "username")),
                     "headline", Get(raw, headlineKey)), "avatar", Get(raw, avatarKey)))
  }

  /** The object literal holds exactly the four flat fields, under the keys a user is read by. */
  lemma FlatAuthorReads(raw: Slot, headlineKey: string, avatarKey: string)
    ensures var f := Some(FlatAuthor(raw, headlineKey, avatarKey));
      && Get(f, "id") == Get(raw, "userId") && Get(f, "_id") == None
      && Get(f, "name") == Get(raw, "username") && Get(f, "username") == None
      && Get(f, "headline") == Get(raw, headlineKey) && Get(f, "userHeadline") == None
      && Get(f, "avatar") == Get(raw, avatarKey) && Get(f, "userAvatar") == None
      && Get(f, "email") == None && Get(f, "bio") == None
      && Get(f, "createdAt") == None && Get(f, "updatedAt") == None
  {
    var m1 := Put(map[], "id", Get(raw, "userId"));
    var m2 := Put(m1, "name", Get(raw, "username"));
    var m3 := Put(m2, "headline", Get(raw, headlineKey));
    var m4 := Put(m3, "avatar", Get(raw, avatarKey));
    assert FlatAuthor(raw, headlineKey, avatarKey) == JsObject(m4);
  }

  /** The user built from the flat fields reads each of them, and nothing else. */
  lemma FlatAuthorUser(raw: Slot, headlineKey: string, avatarKey: string)
    ensures var u := NormalizeUser(Some(FlatAuthor(raw, headlineKey, avatarKey)));
      && u.id == ToStringId(Get(raw, "userId"))
      && u.name == Default(Get(raw, "username"), JsString([]))
      && u.headline == Default(Get(raw, headlineKey), JsNull)
      && u.avatar == Default(Get(raw, avatarKey), JsNull)
      && u.email == JsString([]) && u.bio == JsNull && u.createdAt == JsNull
  {
    FlatAuthorReads(raw, headlineKey, avatarKey);
  }

  /** `cond ? value.length : 0` with `cond` being `Array.isArray(value)`. */
  function ArrayLengthOrZero(v: Slot): (r: JsValue)
    ensures r.JsNumber? && r.n >= 0
    ensures v.Some? && v.value.JsArray? ==> r == JsNumber(|v.value.items|)
    ensures !(v.Some? && v.value.JsArray?) ==> r == JsNumber(0)
  {
    if v.Some? && v.value.JsArray? then JsNumber(|v.value.items|) else JsNumber(0)
  }

  /** `toStringId(raw?.id ?? raw?._id)`: the record's own id, `id` before `_id`. */
  function RecordId(raw: Slot): (r: string)
    ensures !Nullish(Get(raw, "id")) ==> r == ToStr(Get(raw, "id").value)
    ensures Nullish(Get(raw, "id")) ==> r == ToStringId(Get(raw, "_id"))
  {
    ToStringId(Coalesce(Get(raw, "id"), Get(raw, "_id")))
  }

  /** The author of a post or comment: the nested user when present, else the flat fields. */
  function AuthorOf(raw: Slot, headlineKey: string, avatarKey: string): (u: User)
    ensures !Nullish(Get(raw, "user")) ==> u == NormalizeUser(Get(raw, "user"))
    ensures Nullish(Get(raw, "user")) ==> u == NormalizeUser(Some(FlatAuthor(raw, headlineKey, avatarKey)))
  {
    NormalizeUser(Coalesce(Get(raw, "user"), Some(FlatAuthor(raw, headlineKey, avatarKey))))
  }

  /** A post's `userId`: the top-level `userId`, then the nested user's `_id`, then its `id`. */
  function PostUserId(raw: Slot): (r: string)
    ensures !Nullish(Get(raw, "userId")) ==> r == ToStr(Get(raw, "userId").value)
    ensures Nullish(Get(raw, "userId")) && !Nullish(Get(Get(raw, "user"), "_id")) ==>
      r == ToStr(Get(Get(raw, "user"), "_id").value)
    ensures Nullish(Get(raw, "userId")) && Nullish(Get(Get(raw, "user"), "_id")) ==>
      r == ToStringId(Get(Get(raw, "user"), "id"))
  {
    ToStringId(Coalesce(Get(raw, "userId"), Coalesce(Get(Get(raw, "user"), "_id"), Get(Get(raw, "user"), "id"))))
  }

  /** `normalizePost`; `now` stands for `new Date().toISOString()`. */
  function NormalizePost(raw: Slot, now: string): (r: Post)
    // the id and userId chains, each stated by its own function
    ensures r.id == RecordId(raw) && r.userId == PostUserId(raw)
    ensures FirstOf(r.content, Get(raw, "content"), None, JsString([]))
    ensures FirstOf(r.imageUrl, Get(raw, "imageUrl"), Get(raw, "imageURL"), JsNull)
    // explicit counts are kept, even 0; else the array's length; else 0
    ensures FirstOf(r.likesCount, Get(raw, "likesCount"), None, ArrayLengthOrZero(Get(raw, "likes")))
    ensures FirstOf(r.commentsCount, Get(raw, "commentsCount"), None, ArrayLengthOrZero(Get(raw, "comments")))
    ensures r.isLiked == Truthy(Get(raw, "isLiked"))
    ensures FirstOf(r.createdAt, Get(raw, "createdAt"), None, JsString(now))
    // the author: the nested user when present, else the flat fields
    ensures !Nullish(Get(raw, "user")) ==> r.user == NormalizeUser(Get(raw, "user"))
    ensures Nullish(Get(raw, "user")) ==> r.user == NormalizeUser(Some(FlatAuthor(raw, "userHeadline", "userAvatar")))
  {
    Post(
      id := RecordId(raw),
      userId := PostUserId(raw),
      content := Default(Get(raw, "content"), JsString([])),
      imageUrl := Prefer(raw, "imageUrl", "imageURL", JsNull),
      likesCount := Default(Get(raw, "likesCount"), ArrayLengthOrZero(Get(raw, "likes"))),
      commentsCount := Default(Get(raw, "commentsCount"), ArrayLengthOrZero(Get(raw, "comments"))),
      createdAt := Default(Get(raw, "createdAt"), JsString(now)),
      isLiked := Truthy(Get(raw, "isLiked")),
      user := AuthorOf(raw, "userHeadline", "userAvatar"))
  }

  /** Without a nested user, the post's author is built from the flat `userId`, `username`, `userHeadline` and `userAvatar`. */
  lemma PostAuthorFromFlatFields(raw: Slot, now: string)
    requires Nullish(Get(raw, "user"))
    ensures var u := NormalizePost(raw, now).user;
      && u.id == ToStringId(Get(raw, "userId"))
      && u.name == Default(Get(raw, "username"), JsString([]))
      && u.headline == Default(Get(raw, "userHeadline"), JsNull)
      && u.avatar == Default(Get(raw, "userAvatar"), JsNull)
      && u.email == JsString([]) && u.bio == JsNull && u.createdAt == JsNull
  {
    FlatAuthorUser(raw, "userHeadline", "userAvatar");
  }

  /**
   * A post's `userId` reads the top-level `userId`, then the nested `_id`, then the nested `id`;
   * its author's id reads the nested `id` before `_id`, or the top-level `userId` when there is
   * no nested user. The two agree exactly when there is no nested user, or the top-level
   * `userId` has the author's id as its text, or (with no top-level `userId`) the nested user
   * lacks one of `id` and `_id` or gives both the same text.
   */
  lemma PostUserIdMatchesAuthorIff(raw: Slot, now: string)
    ensures var p := NormalizePost(raw, now);
      var user := Get(raw, "user");
      p.userId == p.user.id <==>
        || Nullish(user)
        || (!Nullish(Get(raw, "userId")) && ToStr(Get(raw, "userId").value) == NormalizeUser(user).id)
        || (Nullish(Get(raw, "userId")) &&
              (Nullish(Get(user, "id")) || Nullish(Get(user, "_id")) ||
               ToStr(Get(user, "id").value) == ToStr(Get(user, "_id").value)))
  {
    if Nullish(Get(raw, "user")) {
      PostAuthorFromFlatFields(raw, now);
    }
  }

  /** With `{id: 1, _id: 2}` as the nested user, the post's `userId` is "2" and its author's id "1". */
  lemma PostUserIdCanDisagree(now: string)
    ensures var raw := Some(JsObject(map["user" := JsObject(map["id" := JsNumber(1), "_id" := JsNumber(2)])]));
      NormalizePost(raw, now).userId != NormalizePost(raw, now).user.id
  {
    var user := JsObject(map["id" := JsNumber(1), "_id" := JsNumber(2)]);
    var raw := Some(JsObject(map["user" := user]));
    assert Get(raw, "userId") == None && Get(raw, "user") == Some(user);
    assert Get(Some(user), "_id") == Some(JsNumber(2)) && Get(Some(user), "id") == Some(JsNumber(1));
    assert PostUserId(raw) == IntToString(2);
    assert AuthorOf(raw, "userHeadline", "userAvatar").id == RecordId(Some(user)) == IntToString(1);
    assert IntToString(2) == "2" && IntToString(1) == "1";
  }

  /** With `userId: 1` at the top and `{id: 2}` as the nested user, the post's `userId` is "1" and its author's id "2". */
  lemma TopLevelUserIdCanDisagree(now: string)
    ensures var raw := Some(JsObject(map["userId" := JsNumber(1), "user" := JsObject(map["id" := JsNumber(2)])]));
      NormalizePost(raw, now).userId != NormalizePost(raw, now).user.id
  {
    var user := JsObject(map["id" := JsNumber(2)]);
    var raw := Some(JsObject(map["userId" := JsNumber(1), "user" := user]));
    assert Get(raw, "userId") == Some(JsNumber(1)) && Get(raw, "user") == Some(user);
    assert Get(Some(user), "id") == Some(JsNumber(2));
    assert PostUserId(raw) == IntToString(1);
    assert AuthorOf(raw, "userHeadline", "userAvatar").id == RecordId(Some(user)) == IntToString(2);
    assert IntToString(2) == "2" && IntToString(1) == "1";
  }

  /** `normalizeComment`; an explicit `postId` argument wins over the comment's own fields. */
  function NormalizeComment(raw: Slot, postId: Option<string>, now: string): (r: Comment)
    ensures r.id == RecordId(raw)
    ensures r.userId == r.user.id
    ensures postId.Some? ==> r.postId == postId.value
    ensures postId.None? ==>
      r.postId == ToStringId(Coalesce(Get(raw, "postId"), Get(Get(raw, "post"), "_id")))
    // content, then text, then ""
    ensures !Nullish(Get(raw, "content")) ==> Some(r.content) == Get(raw, "content")
    ensures Nullish(Get(raw, "content")) && !Nullish(Get(raw, "text")) ==> Some(r.content) == Get(raw, "text")
    ensures Nullish(Get(raw, "content")) && Nullish(Get(raw, "text")) ==> r.content == JsString([])
    ensures FirstOf(r.createdAt, Get(raw, "createdAt"), None, JsString(now))
    ensures !Nullish(Get(raw, "user")) ==> r.user == NormalizeUser(Get(raw, "user"))
    ensures Nullish(Get(raw, "user")) ==> r.user == NormalizeUser(Some(FlatAuthor(raw, "headline", "avatar")))
  {
    var user := AuthorOf(raw, "headline", "avatar");
    var explicitPost: Slot := if postId.Some? then Some(JsString(postId.value)) else None;
    Comment(
      id := RecordId(raw),
      userId := user.id,
      postId := ToStringId(Coalesce(explicitPost, Coalesce(Get(raw, "postId"), Get(Get(raw, "post"), "_id")))),
      content := Prefer(raw, "content", "text", JsString([])),
      createdAt := Default(Get(raw, "createdAt"), JsString(now)),
      user := user)
  }

  /** Without a nested user, the comment's author is built from the flat `userId`, `username`, `headline` and `avatar`. */
  lemma CommentAuthorFromFlatFields(raw: Slot, postId: Option<string>, now: string)
    requires Nullish(Get(raw, "user"))
    ensures var c := NormalizeComment(raw, postId, now);
      && c.userId == ToStringId(Get(raw, "userId"))
      && c.user.name == Default(Get(raw, "username"), JsString([]))
      && c.user.headline == Default(Get(raw, "headline"), JsNull)
      && c.user.avatar == Default(Get(raw, "avatar"), JsNull)
  {
    FlatAuthorUser(raw, "headline", "avatar");
  }
}
